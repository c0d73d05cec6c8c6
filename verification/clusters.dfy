/** `MatchInfo` and the list it lives in: clusters of matched pieces, merged by set
    overlap, each with an optional swap anchor. */
module Clusters {
  import opened Wrappers
  import opened Positions
  import opened Pieces

  /** One cluster: its pieces and the swap position it is anchored to, if any. */
  datatype MatchInfo = MatchInfo(gems: set<Piece>, anchor: Option<GridPosition>)

  predicate Overlaps(a: set<Piece>, b: set<Piece>) {
    exists p :: p in a && p in b
  }

  /** Index of the first cluster at or after `from` that overlaps `s`. */
  function FirstOverlap(ms: seq<MatchInfo>, s: set<Piece>, from: nat): (r: Option<nat>)
    requires from <= |ms|
    ensures r.Some? ==> from <= r.value < |ms| && Overlaps(ms[r.value].gems, s)
    ensures forall k :: from <= k < |ms| && (r.None? || k < r.value) ==> !Overlaps(ms[k].gems, s)
    decreases |ms| - from
  {
    if from == |ms| then None
    else if Overlaps(ms[from].gems, s) then Some(from)
    else FirstOverlap(ms, s, from + 1)
  }

  /** The cluster list after `AddMatch(m)`: `m` is unioned into the first cluster it
      overlaps, whose anchor is replaced only when it was empty; with no overlap `m`
      is appended. */
  function Merge(ms: seq<MatchInfo>, m: MatchInfo): seq<MatchInfo> {
    match FirstOverlap(ms, m.gems, 0)
    case None => ms + [m]
    case Some(i) => ms[i := MatchInfo(ms[i].gems + m.gems, ms[i].anchor.OrElse(m.anchor))]
  }

  /** The pieces of each cluster, in list order, without the anchors. */
  function GemSets(ms: seq<MatchInfo>): seq<set<Piece>> {
    seq(|ms|, k requires 0 <= k < |ms| => ms[k].gems)
  }

  /** Two lists with the same pieces have the same length and the same pieces cluster
      by cluster. */
  lemma SameSetsAt(ms: seq<MatchInfo>, ns: seq<MatchInfo>)
    requires GemSets(ms) == GemSets(ns)
    ensures |ms| == |ns| && forall k :: 0 <= k < |ms| ==> ms[k].gems == ns[k].gems
  {
    assert |GemSets(ms)| == |GemSets(ns)|;
    forall k | 0 <= k < |ms| ensures ms[k].gems == ns[k].gems {
      assert GemSets(ms)[k] == GemSets(ns)[k];
    }
  }

  /** The first overlap depends only on the clusters' pieces. */
  lemma {:induction false} FirstOverlapSameSets(ms: seq<MatchInfo>, ns: seq<MatchInfo>, s: set<Piece>, from: nat)
    requires GemSets(ms) == GemSets(ns) && from <= |ms|
    ensures FirstOverlap(ms, s, from) == FirstOverlap(ns, s, from)
    decreases |ms| - from
  {
    SameSetsAt(ms, ns);
    if from < |ms| {
      FirstOverlapSameSets(ms, ns, s, from + 1);
    }
  }

  /** Which cluster a merge grows, and by what, depends only on the pieces of the
      clusters and of the new set: the anchors play no part in it. */
  lemma MergeSameSets(ms: seq<MatchInfo>, ns: seq<MatchInfo>, m: MatchInfo, n: MatchInfo)
    requires GemSets(ms) == GemSets(ns) && m.gems == n.gems
    ensures GemSets(Merge(ms, m)) == GemSets(Merge(ns, n))
  {
    FirstOverlapSameSets(ms, ns, m.gems, 0);
    SameSetsAt(ms, ns);
  }

  /** The list after adding the run `run`, or the list itself when `run` is empty. The
      anchor is left empty: only the pieces of the clusters are followed. */
  function WithRun(ms: seq<MatchInfo>, run: set<Piece>): seq<MatchInfo> {
    if run == {} then ms else Merge(ms, MatchInfo(run, None))
  }

  /** The same for adding a run. */
  lemma WithRunSameSets(ms: seq<MatchInfo>, ns: seq<MatchInfo>, run: set<Piece>)
    requires GemSets(ms) == GemSets(ns)
    ensures GemSets(WithRun(ms, run)) == GemSets(WithRun(ns, run))
  {
    if run != {} {
      MergeSameSets(ms, ns, MatchInfo(run, None), MatchInfo(run, None));
    }
  }

  /** Every piece held by some cluster. */
  function Members(ms: seq<MatchInfo>): set<Piece> {
    if ms == [] then {} else Members(ms[..|ms| - 1]) + ms[|ms| - 1].gems
  }

  /** `s` lies wholly inside one cluster. */
  predicate Absorbed(ms: seq<MatchInfo>, s: set<Piece>) {
    exists k :: 0 <= k < |ms| && s <= ms[k].gems
  }

  /** `b` extends `a` cluster by cluster: no cluster shrinks or disappears. */
  predicate Grows(a: seq<MatchInfo>, b: seq<MatchInfo>) {
    |a| <= |b| && forall k :: 0 <= k < |a| ==> a[k].gems <= b[k].gems
  }

  lemma GrowsTransitive(a: seq<MatchInfo>, b: seq<MatchInfo>, c: seq<MatchInfo>)
    requires Grows(a, b) && Grows(b, c)
    ensures Grows(a, c)
  {
  }

  /** A set inside a cluster stays inside it as the list grows. */
  lemma GrowsKeepsAbsorbed(a: seq<MatchInfo>, b: seq<MatchInfo>, s: set<Piece>)
    requires Grows(a, b) && Absorbed(a, s)
    ensures Absorbed(b, s)
  {
    var k :| 0 <= k < |a| && s <= a[k].gems;
    assert s <= b[k].gems;
  }

  /** All pieces of one cluster share a type. */
  predicate Uniform(s: set<Piece>) {
    forall p, q {:trigger p in s, q in s} :: p in s && q in s ==> p.Kind() == q.Kind()
  }

  predicate AllLarge(ms: seq<MatchInfo>) {
    forall k :: 0 <= k < |ms| ==> |ms[k].gems| >= 3
  }

  predicate AllUniform(ms: seq<MatchInfo>) {
    forall k :: 0 <= k < |ms| ==> Uniform(ms[k].gems)
  }

  predicate AllAnchored(ms: seq<MatchInfo>, anchor: Option<GridPosition>) {
    forall k :: 0 <= k < |ms| ==> ms[k].anchor == anchor
  }

  /** Some piece of `s` stands at `pos`. */
  predicate Occupies(s: set<Piece>, pos: GridPosition)
    reads s`position
  {
    exists p :: p in s && p.position == pos
  }

  /** The anchor of a cluster built from a swap of `a` and `b`: empty exactly when no
      member stands on either swap cell, and otherwise one of them that a member occupies. */
  predicate SwapAnchored(m: MatchInfo, a: GridPosition, b: GridPosition)
    reads m.gems`position
  {
    (m.anchor.None? <==> !Occupies(m.gems, a) && !Occupies(m.gems, b)) &&
    (m.anchor.Some? ==> (m.anchor.value == a && Occupies(m.gems, a)) || (m.anchor.value == b && Occupies(m.gems, b)))
  }

  lemma {:induction false} SubsetSize<T>(a: set<T>, b: set<T>)
    requires a <= b
    ensures |a| <= |b|
    decreases a
  {
    if a != {} {
      var x :| x in a;
      SubsetSize(a - {x}, b - {x});
    }
  }

  lemma {:induction false} MembersOfAppend(ms: seq<MatchInfo>, m: MatchInfo)
    ensures Members(ms + [m]) == Members(ms) + m.gems
  {
    assert (ms + [m])[..|ms|] == ms;
  }

  /** A cluster's pieces are members. */
  lemma {:induction false} ClusterInMembers(ms: seq<MatchInfo>, k: nat)
    requires k < |ms|
    ensures ms[k].gems <= Members(ms)
    decreases |ms|
  {
    if k < |ms| - 1 {
      ClusterInMembers(ms[..|ms| - 1], k);
    }
  }

  /** Members of clusters that all keep clear of `u` keep clear of `u`. */
  lemma {:induction false} MembersApart(ms: seq<MatchInfo>, u: set<Piece>)
    requires forall k :: 0 <= k < |ms| ==> ms[k].gems !! u
    ensures Members(ms) !! u
    decreases |ms|
  {
    if ms != [] {
      MembersApart(ms[..|ms| - 1], u);
    }
  }

  /** Growing one cluster grows the members by exactly the added pieces. */
  lemma {:induction false} MembersOfUpdate(ms: seq<MatchInfo>, i: nat, s: set<Piece>, anchor: Option<GridPosition>)
    requires i < |ms|
    ensures Members(ms[i := MatchInfo(ms[i].gems + s, anchor)]) == Members(ms) + s
    decreases |ms|
  {
    var us := ms[i := MatchInfo(ms[i].gems + s, anchor)];
    var n := |ms| - 1;
    if i == n {
      assert us[..n] == ms[..n];
    } else {
      MembersOfUpdate(ms[..n], i, s, anchor);
      assert us[..n] == ms[..n][i := MatchInfo(ms[i].gems + s, anchor)];
      ClusterInMembers(ms[..n], i);
    }
  }

  /** `AddMatch` neither loses nor invents pieces. */
  lemma MergeMembers(ms: seq<MatchInfo>, m: MatchInfo)
    ensures Members(Merge(ms, m)) == Members(ms) + m.gems
  {
    match FirstOverlap(ms, m.gems, 0)
    case None => MembersOfAppend(ms, m);
    case Some(i) => MembersOfUpdate(ms, i, m.gems, ms[i].anchor.OrElse(m.anchor));
  }

  /** The list grows by one exactly when the new set overlaps no cluster; otherwise the
      first overlapping cluster absorbs it and keeps a non-empty anchor. */
  lemma MergeShape(ms: seq<MatchInfo>, m: MatchInfo)
    ensures |Merge(ms, m)| == |ms| + 1 <==> forall k :: 0 <= k < |ms| ==> !Overlaps(ms[k].gems, m.gems)
    ensures |Merge(ms, m)| == |ms| + 1 ==> Merge(ms, m)[|ms|] == m
    ensures |Merge(ms, m)| == |ms| ==>
              exists i :: 0 <= i < |ms| && Overlaps(ms[i].gems, m.gems) &&
                (forall k :: 0 <= k < i ==> !Overlaps(ms[k].gems, m.gems)) &&
                Merge(ms, m)[i].gems == ms[i].gems + m.gems &&
                Merge(ms, m)[i].anchor == (if ms[i].anchor.Some? then ms[i].anchor else m.anchor)
    ensures |Merge(ms, m)| == |ms| || |Merge(ms, m)| == |ms| + 1
  {
  }

  /** The new set ends up inside one cluster, and no cluster loses a piece. */
  lemma MergeAbsorbs(ms: seq<MatchInfo>, m: MatchInfo)
    ensures Absorbed(Merge(ms, m), m.gems)
    ensures Grows(ms, Merge(ms, m))
  {
    var r := Merge(ms, m);
    match FirstOverlap(ms, m.gems, 0)
    case None =>
      assert m.gems <= r[|ms|].gems;
    case Some(i) =>
      assert m.gems <= r[i].gems;
  }

  /** Merged clusters keep at least three pieces of a single type. */
  lemma MergeKeepsShape(ms: seq<MatchInfo>, m: MatchInfo)
    requires AllLarge(ms) && |m.gems| >= 3
    requires AllUniform(ms) && Uniform(m.gems)
    ensures AllLarge(Merge(ms, m)) && AllUniform(Merge(ms, m))
  {
    match FirstOverlap(ms, m.gems, 0)
    case None =>
    case Some(i) =>
      var g := ms[i].gems + m.gems;
      SubsetSize(ms[i].gems, g);
      var w :| w in ms[i].gems && w in m.gems;
      forall p, q | p in g && q in g
        ensures p.Kind() == q.Kind()
      {
        assert p.Kind() == w.Kind() && q.Kind() == w.Kind();
      }
  }

  /** A bound every cluster and the incoming set respect holds for every merged cluster. */
  lemma MergeKeepsWithin(ms: seq<MatchInfo>, m: MatchInfo, u: set<Piece>)
    requires forall k :: 0 <= k < |ms| ==> ms[k].gems <= u
    requires m.gems <= u
    ensures forall k :: 0 <= k < |Merge(ms, m)| ==> Merge(ms, m)[k].gems <= u
  {
  }

  /** So does staying clear of a set. */
  lemma MergeKeepsApart(ms: seq<MatchInfo>, m: MatchInfo, u: set<Piece>)
    requires forall k :: 0 <= k < |ms| ==> ms[k].gems !! u
    requires m.gems !! u
    ensures forall k :: 0 <= k < |Merge(ms, m)| ==> Merge(ms, m)[k].gems !! u
  {
  }

  /** With one shared anchor on every incoming set, every cluster carries it. */
  lemma MergeKeepsAnchor(ms: seq<MatchInfo>, m: MatchInfo)
    requires AllAnchored(ms, m.anchor)
    ensures AllAnchored(Merge(ms, m), m.anchor)
  {
  }

  /** Swap anchoring survives a merge: the union takes the first non-empty anchor. */
  lemma MergeKeepsSwapAnchor(ms: seq<MatchInfo>, m: MatchInfo, a: GridPosition, b: GridPosition)
    requires forall k :: 0 <= k < |ms| ==> SwapAnchored(ms[k], a, b)
    requires SwapAnchored(m, a, b)
    ensures forall k :: 0 <= k < |Merge(ms, m)| ==> SwapAnchored(Merge(ms, m)[k], a, b)
  {
    match FirstOverlap(ms, m.gems, 0)
    case None =>
    case Some(i) =>
      var c := ms[i];
      var g := c.gems + m.gems;
      var n := MatchInfo(g, c.anchor.OrElse(m.anchor));
      assert Occupies(g, a) <==> Occupies(c.gems, a) || Occupies(m.gems, a);
      assert Occupies(g, b) <==> Occupies(c.gems, b) || Occupies(m.gems, b);
      assert SwapAnchored(n, a, b);
  }
}
