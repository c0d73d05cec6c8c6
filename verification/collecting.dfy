/** The wave bookkeeping that follows a scan (`PathfinderService` in the newer lineage,
    `MatchService` in the older): bomb-creation positions, the matched pieces to destroy,
    and the two explosion waves. The collectors only read the cluster list, `explosions`
    and the pieces. */
module Collecting {
  import opened Positions
  import opened Pieces
  import opened Boards
  import opened Clusters
  import opened Destroying

  /** The order in which a `HashSet` hands out its members. C# does not fix it, so it is a
      parameter of the model. */
  type Order = set<Piece> -> seq<Piece>

  /** `order` lists every member of `s` exactly once. */
  predicate Lists(order: Order, s: set<Piece>) {
    (forall p | p in s :: p in order(s)) &&
    (forall i | 0 <= i < |order(s)| :: order(s)[i] in s) &&
    (forall i, j | 0 <= i < j < |order(s)| :: order(s)[i] != order(s)[j])
  }

  /** `order` lists every cluster's members exactly once. */
  predicate ListsClusters(order: Order, ms: seq<MatchInfo>) {
    forall k | 0 <= k < |ms| :: Lists(order, ms[k].gems)
  }

  /** A piece that goes off when it explodes: a colour bomb or a piece of the bomb type. */
  predicate Explodes(p: Piece) {
    p.IsColorBomb() || p.Kind() == Bomb
  }

  /* ---------- bomb-creation positions ---------- */

  /** A cluster of at least `min` pieces offers a bomb; `firstGem` is the first member
      its set hands out, and an empty set offers nothing. */
  predicate Offers(m: MatchInfo, min: int, order: Order) {
    |m.gems| >= min && order(m.gems) != []
  }

  /** `UserActionPos ?? firstGem.Position`. */
  function KeyOf(m: MatchInfo, order: Order): GridPosition
    requires order(m.gems) != []
    reads order(m.gems)[0]
  {
    if m.anchor.Some? then m.anchor.value else order(m.gems)[0].position
  }

  /** The bomb type offered: the first member's type. */
  function TypeOf(m: MatchInfo, order: Order): GemType
    requires order(m.gems) != []
  {
    order(m.gems)[0].Kind()
  }

  /** The dictionary `CollectBombCreationPositions` builds from the clusters `ms`, in
      list order, with `TryAdd`. */
  ghost function BombPositions(ms: seq<MatchInfo>, min: int, order: Order): map<GridPosition, GemType>
    requires ListsClusters(order, ms)
    reads Members(ms)
  {
    if ms == [] then map[]
    else
      var acc := BombPositions(ms[..|ms| - 1], min, order);
      var m := ms[|ms| - 1];
      if Offers(m, min, order) && KeyOf(m, order) !in acc then acc[KeyOf(m, order) := TypeOf(m, order)] else acc
  }

  /** `CollectBombCreationPositions`: one `foreach` over the clusters. */
  method CollectBombCreationPositions(ms: seq<MatchInfo>, min: int, order: Order) returns (r: map<GridPosition, GemType>)
    requires ListsClusters(order, ms)
    ensures r == BombPositions(ms, min, order)
  {
    r := map[];
    for i := 0 to |ms|
      invariant r == BombPositions(ms[..i], min, order)
    {
      assert ms[..i + 1][..i] == ms[..i];
      var m := ms[i];
      if |m.gems| >= min {
        var gems := order(m.gems);
        if gems != [] {
          var firstGem := gems[0];
          var key := if m.anchor.Some? then m.anchor.value else firstGem.position;
          if key !in r {
            r := r[key := firstGem.Kind()];
          }
        }
      }
    }
    assert ms[..|ms|] == ms;
  }

  /** Cluster `k` is the first of `ms` to offer position `pos`. */
  ghost predicate FirstOffer(ms: seq<MatchInfo>, min: int, order: Order, k: int, pos: GridPosition)
    requires ListsClusters(order, ms)
    reads Members(ms)
  {
    0 <= k < |ms| && Offers(ms[k], min, order) && (ClusterInMembers(ms, k); KeyOf(ms[k], order) == pos) &&
    forall j | 0 <= j < k && Offers(ms[j], min, order) :: (ClusterInMembers(ms, j); KeyOf(ms[j], order) != pos)
  }

  /** Every offering cluster's position is a key of the dictionary. */
  lemma {:induction false} BombPositionsKeys(ms: seq<MatchInfo>, min: int, order: Order, k: int)
    requires ListsClusters(order, ms)
    requires 0 <= k < |ms| && Offers(ms[k], min, order)
    ensures KeyOf(ms[k], order) in BombPositions(ms, min, order)
    decreases |ms|
  {
    var n := |ms| - 1;
    if k < n {
      assert ms[..n][k] == ms[k];
      BombPositionsKeys(ms[..n], min, order, k);
    }
  }

  /** Each key comes from the first cluster offering it and carries that cluster's
      type: `TryAdd` lets the first cluster win. */
  lemma {:induction false} BombPositionsFirstWins(ms: seq<MatchInfo>, min: int, order: Order, pos: GridPosition)
    requires ListsClusters(order, ms)
    requires pos in BombPositions(ms, min, order)
    ensures exists k :: FirstOffer(ms, min, order, k, pos) && BombPositions(ms, min, order)[pos] == TypeOf(ms[k], order)
    decreases |ms|
  {
    var n := |ms| - 1;
    var front := ms[..n];
    var acc := BombPositions(front, min, order);
    if pos in acc {
      BombPositionsFirstWins(front, min, order, pos);
      var k :| FirstOffer(front, min, order, k, pos) && acc[pos] == TypeOf(front[k], order);
      assert ms[k] == front[k];
      assert forall j | 0 <= j < k :: ms[j] == front[j];
      assert FirstOffer(ms, min, order, k, pos);
    } else {
      forall j | 0 <= j < n && Offers(ms[j], min, order)
        ensures KeyOf(ms[j], order) != pos
      {
        assert front[j] == ms[j];
        BombPositionsKeys(front, min, order, j);
      }
      assert FirstOffer(ms, min, order, n, pos);
    }
  }

  /* ---------- the matched pieces ---------- */

  /** The members of `xs` that do not explode, in order. */
  function Plain(xs: seq<Piece>): seq<Piece> {
    if xs == [] then []
    else
      var last := xs[|xs| - 1];
      Plain(xs[..|xs| - 1]) + (if Explodes(last) then [] else [last])
  }

  /** The list `CollectMatchedGems` builds: each cluster's plain members in the order its
      set hands them out, cluster after cluster. */
  function MatchedGems(ms: seq<MatchInfo>, order: Order): seq<Piece> {
    if ms == [] then [] else MatchedGems(ms[..|ms| - 1], order) + Plain(order(ms[|ms| - 1].gems))
  }

  /** `CollectMatchedGems` (and the collecting half of the older
      `CollectAndDestroyMatchedGems`): the nested `foreach` loops. */
  method CollectMatchedGems(ms: seq<MatchInfo>, order: Order) returns (r: seq<Piece>)
    ensures r == MatchedGems(ms, order)
  {
    r := [];
    for i := 0 to |ms|
      invariant r == MatchedGems(ms[..i], order)
    {
      assert ms[..i + 1][..i] == ms[..i];
      ghost var before := r;
      var gems := order(ms[i].gems);
      for k := 0 to |gems|
        invariant r == before + Plain(gems[..k])
      {
        assert gems[..k + 1][..k] == gems[..k];
        var gem := gems[k];
        if !gem.IsColorBomb() && gem.Kind() != Bomb {
          r := r + [gem];
        }
      }
      assert gems[..|gems|] == gems;
    }
    assert ms[..|ms|] == ms;
  }

  /** How often `p` occurs in `xs`: once in `Plain(xs)` per occurrence in `xs`, unless it explodes. */
  lemma {:induction false} PlainCount(xs: seq<Piece>, p: Piece)
    ensures multiset(Plain(xs))[p] == if Explodes(p) then 0 else multiset(xs)[p]
    decreases |xs|
  {
    if xs != [] {
      var n := |xs| - 1;
      PlainCount(xs[..n], p);
      assert xs == xs[..n] + [xs[n]];
    }
  }

  /** A list without repeats holds each of its elements once. */
  lemma {:induction false} DistinctCount(xs: seq<Piece>, p: Piece)
    requires forall i, j :: 0 <= i < j < |xs| ==> xs[i] != xs[j]
    ensures multiset(xs)[p] == if p in xs then 1 else 0
    decreases |xs|
  {
    if xs != [] {
      var n := |xs| - 1;
      DistinctCount(xs[..n], p);
      assert xs == xs[..n] + [xs[n]];
      if xs[n] == p {
        assert p !in xs[..n];
      }
    }
  }

  /** The number of clusters holding `p`. */
  function Occurrences(ms: seq<MatchInfo>, p: Piece): nat {
    if ms == [] then 0 else Occurrences(ms[..|ms| - 1], p) + (if p in ms[|ms| - 1].gems then 1 else 0)
  }

  /** `CollectMatchedGems` lists exactly the plain cluster members, each once per cluster
      holding it: a piece in two overlapping clusters is listed twice. */
  lemma {:induction false} MatchedGemsCount(ms: seq<MatchInfo>, order: Order, p: Piece)
    requires ListsClusters(order, ms)
    ensures multiset(MatchedGems(ms, order))[p] == if Explodes(p) then 0 else Occurrences(ms, p)
    ensures p in MatchedGems(ms, order) <==> !Explodes(p) && p in Members(ms)
    decreases |ms|
  {
    if ms != [] {
      var n := |ms| - 1;
      var xs := order(ms[n].gems);
      MatchedGemsCount(ms[..n], order, p);
      PlainCount(xs, p);
      DistinctCount(xs, p);
      assert p in xs <==> p in ms[n].gems;
      assert multiset(MatchedGems(ms, order)) == multiset(MatchedGems(ms[..n], order)) + multiset(Plain(xs));
      assert p in MatchedGems(ms[..n], order) <==> multiset(MatchedGems(ms[..n], order))[p] > 0;
      OccurrencesCounts(ms, p);
    }
  }

  /** A piece occurs in some cluster exactly when it is a member. */
  lemma {:induction false} OccurrencesCounts(ms: seq<MatchInfo>, p: Piece)
    ensures Occurrences(ms, p) > 0 <==> p in Members(ms)
    decreases |ms|
  {
    if ms != [] {
      OccurrencesCounts(ms[..|ms| - 1], p);
    }
  }

  /** Only cluster members are collected. */
  lemma {:induction false} MatchedGemsWithin(ms: seq<MatchInfo>, order: Order)
    requires ListsClusters(order, ms)
    ensures forall k | 0 <= k < |MatchedGems(ms, order)| :: MatchedGems(ms, order)[k] in Members(ms)
  {
    forall k | 0 <= k < |MatchedGems(ms, order)|
      ensures MatchedGems(ms, order)[k] in Members(ms)
    {
      MatchedGemsCount(ms, order, MatchedGems(ms, order)[k]);
    }
  }

  /** The older `CollectAndDestroyMatchedGems`: the matched pieces go straight to
      `DestroyGems`. */
  method CollectAndDestroyMatchedGems(ms: seq<MatchInfo>, order: Order, destroyService: DestroyService)
    requires ListsClusters(order, ms) && destroyService.board.Valid() && destroyService.scores.Valid()
    requires forall p :: p in Members(ms) ==> destroyService.board.InBounds(p.position)
    modifies destroyService.board.cells, destroyService.scores
    ensures destroyService.scores.Valid()
    ensures destroyService.scores.score == old(destroyService.scores.score) + TotalScore(MatchedGems(ms, order))
    ensures forall i, j :: 0 <= i < destroyService.board.width && 0 <= j < destroyService.board.height ==>
              destroyService.board.cells[i, j] ==
                if Clears(old(destroyService.board.cells[i, j]), MatchedGems(ms, order), i, j) then null
                else old(destroyService.board.cells[i, j])
  {
    MatchedGemsWithin(ms, order);
    ghost var collected := MatchedGems(ms, order);
    assert Placed(destroyService.board, collected) by {
      forall k | 0 <= k < |collected|
        ensures destroyService.board.InBounds(collected[k].position)
      {
        assert collected[k] in Members(ms);
      }
    }
    var matchedGems := CollectMatchedGems(ms, order);
    destroyService.DestroyGems(matchedGems);
  }

  /* ---------- the explosion waves ---------- */

  /** The explosions that do not go off and were not just created, in set order. */
  function NonBombWave(xs: seq<Piece>, newly: set<Piece>): seq<Piece> {
    if xs == [] then []
    else
      var last := xs[|xs| - 1];
      NonBombWave(xs[..|xs| - 1], newly) + (if !Explodes(last) && last !in newly then [last] else [])
  }

  /** The explosions that go off and were not just created, in set order. */
  function BombWave(xs: seq<Piece>, newly: set<Piece>): seq<Piece> {
    if xs == [] then []
    else
      var last := xs[|xs| - 1];
      BombWave(xs[..|xs| - 1], newly) + (if Explodes(last) && last !in newly then [last] else [])
  }

  /** `CollectNonBombExplosions(newlyCreatedBombs)`. */
  method CollectNonBombExplosions(explosions: set<Piece>, newly: set<Piece>, order: Order) returns (r: seq<Piece>)
    ensures r == NonBombWave(order(explosions), newly)
  {
    r := [];
    var gems := order(explosions);
    for k := 0 to |gems|
      invariant r == NonBombWave(gems[..k], newly)
    {
      assert gems[..k + 1][..k] == gems[..k];
      var gem := gems[k];
      if !gem.IsColorBomb() && gem.Kind() != Bomb && gem !in newly {
        r := r + [gem];
      }
    }
    assert gems[..|gems|] == gems;
  }

  /** `CollectBombExplosions(newlyCreatedBombs)`. */
  method CollectBombExplosions(explosions: set<Piece>, newly: set<Piece>, order: Order) returns (r: seq<Piece>)
    ensures r == BombWave(order(explosions), newly)
  {
    r := [];
    var gems := order(explosions);
    for k := 0 to |gems|
      invariant r == BombWave(gems[..k], newly)
    {
      assert gems[..k + 1][..k] == gems[..k];
      var gem := gems[k];
      if (gem.IsColorBomb() || gem.Kind() == Bomb) && gem !in newly {
        r := r + [gem];
      }
    }
    assert gems[..|gems|] == gems;
  }

  lemma {:induction false} WaveMembers(xs: seq<Piece>, newly: set<Piece>)
    ensures forall p :: p in NonBombWave(xs, newly) <==> p in xs && !Explodes(p) && p !in newly
    ensures forall p :: p in BombWave(xs, newly) <==> p in xs && Explodes(p) && p !in newly
    decreases |xs|
  {
    if xs != [] {
      var n := |xs| - 1;
      WaveMembers(xs[..n], newly);
      assert xs == xs[..n] + [xs[n]];
    }
  }

  /** The two waves split the explosions that were not just created: no piece is in
      both, and each such explosion is in one of them. */
  lemma WavesPartition(explosions: set<Piece>, newly: set<Piece>, order: Order)
    requires Lists(order, explosions)
    ensures forall p :: p in NonBombWave(order(explosions), newly) <==> p in explosions && !Explodes(p) && p !in newly
    ensures forall p :: p in BombWave(order(explosions), newly) <==> p in explosions && Explodes(p) && p !in newly
    ensures forall p :: !(p in NonBombWave(order(explosions), newly) && p in BombWave(order(explosions), newly))
    ensures forall p :: p in NonBombWave(order(explosions), newly) || p in BombWave(order(explosions), newly) <==> p in explosions - newly
  {
    WaveMembers(order(explosions), newly);
    forall p | p in NonBombWave(order(explosions), newly)
      ensures p !in BombWave(order(explosions), newly)
    {
      assert !Explodes(p);
    }
  }
}
