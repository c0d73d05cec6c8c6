/** `SpawnService` in both lineages: refilling the top row with a gem that makes as few
    matches as possible, sometimes replaced by the bomb. */
module Spawning {
  import opened Positions
  import opened Pieces
  import opened Boards

  /** `int.MaxValue`, the starting value of the lowest-count search. */
  const IntMax: int := 0x7FFF_FFFF

  /** The lowest non-zero count among the first `n`, folded from `IntMax` in list order
      as the first loop does; `IntMax` when all of them are zero. */
  function Lowest(counts: seq<int>, n: nat): int
    requires n <= |counts|
  {
    if n == 0 then IntMax
    else
      var c := counts[n - 1];
      var l := Lowest(counts, n - 1);
      if c != 0 && c < l then c else l
  }

  /** The first `n` items whose count is `v`, in list order. */
  function Picks<T>(items: seq<T>, counts: seq<int>, v: int, n: nat): seq<T>
    requires n <= |items| && n <= |counts|
  {
    if n == 0 then []
    else Picks(items, counts, v, n - 1) + (if counts[n - 1] == v then [items[n - 1]] else [])
  }

  /** The list the random pick is made from: the items with no match if there are any,
      otherwise those with the lowest count. */
  function Candidates<T>(items: seq<T>, counts: seq<int>): seq<T>
    requires |items| == |counts|
  {
    var zeros := Picks(items, counts, 0, |items|);
    if |zeros| > 0 then zeros else Picks(items, counts, Lowest(counts, |counts|), |items|)
  }

  /** `Lowest` and `Picks` look at the first `n` counts only. */
  lemma {:induction false} FirstCountsOnly<T>(items: seq<T>, counts: seq<int>, more: seq<int>, v: int, n: nat)
    requires n <= |items| && n <= |counts|
    ensures Lowest(counts + more, n) == Lowest(counts, n)
    ensures Picks(items, counts + more, v, n) == Picks(items, counts, v, n)
  {
    if n > 0 {
      FirstCountsOnly(items, counts, more, v, n - 1);
      assert (counts + more)[n - 1] == counts[n - 1];
    }
  }

  /** `Lowest` is at most every non-zero count it has seen, and at most `IntMax`. */
  lemma {:induction false} LowestBelow(counts: seq<int>, n: nat)
    requires n <= |counts|
    ensures Lowest(counts, n) <= IntMax
    ensures forall i :: 0 <= i < n && counts[i] != 0 ==> Lowest(counts, n) <= counts[i]
  {
    if n > 0 {
      LowestBelow(counts, n - 1);
    }
  }

  /** When the counts seen are below `IntMax` and one is non-zero, `Lowest` is one of them. */
  lemma {:induction false} LowestAttained(counts: seq<int>, n: nat)
    requires n <= |counts|
    requires forall i :: 0 <= i < n ==> counts[i] < IntMax
    requires exists i :: 0 <= i < n && counts[i] != 0
    ensures exists i :: 0 <= i < n && counts[i] != 0 && counts[i] == Lowest(counts, n)
  {
    var c := counts[n - 1];
    if exists i :: 0 <= i < n - 1 && counts[i] != 0 {
      LowestAttained(counts, n - 1);
      var i :| 0 <= i < n - 1 && counts[i] != 0 && counts[i] == Lowest(counts, n - 1);
      if !(c != 0 && c < Lowest(counts, n - 1)) {
        assert counts[i] == Lowest(counts, n);
      }
    } else {
      LowestOfZeros(counts, n - 1);
      assert c != 0;
    }
  }

  /** Zeros leave `Lowest` at `IntMax`. */
  lemma {:induction false} LowestOfZeros(counts: seq<int>, n: nat)
    requires n <= |counts|
    requires forall i :: 0 <= i < n ==> counts[i] == 0
    ensures Lowest(counts, n) == IntMax
  {
    if n > 0 {
      LowestOfZeros(counts, n - 1);
    }
  }

  /** Every pick is an item seen with count `v`. */
  lemma {:induction false} PickedFrom<T>(items: seq<T>, counts: seq<int>, v: int, n: nat, k: nat)
    requires n <= |items| == |counts| && k < |Picks(items, counts, v, n)|
    ensures exists i :: 0 <= i < n && items[i] == Picks(items, counts, v, n)[k] && counts[i] == v
  {
    var front := Picks(items, counts, v, n - 1);
    var p := Picks(items, counts, v, n);
    assert p == front + (if counts[n - 1] == v then [items[n - 1]] else []);
    if k < |front| {
      PickedFrom(items, counts, v, n - 1, k);
      var i :| 0 <= i < n - 1 && items[i] == front[k] && counts[i] == v;
      assert p[k] == front[k];
    } else {
      assert items[n - 1] == p[k] && counts[n - 1] == v;
    }
  }

  /** Every item seen with count `v` is picked. */
  lemma {:induction false} PicksAll<T>(items: seq<T>, counts: seq<int>, v: int, n: nat)
    requires n <= |items| == |counts|
    ensures forall i :: 0 <= i < n && counts[i] == v ==> items[i] in Picks(items, counts, v, n)
  {
    if n > 0 {
      PicksAll(items, counts, v, n - 1);
    }
  }

  /** The pick is fair to the best: when counts are below `IntMax`, the candidates are
      never empty, each has a count no greater than any other item's, and every item of
      least count is among them. */
  lemma CandidatesLeast<T>(items: seq<T>, counts: seq<int>)
    requires |items| == |counts| > 0
    requires forall i :: 0 <= i < |counts| ==> 0 <= counts[i] < IntMax
    ensures |Candidates(items, counts)| > 0
    ensures forall k :: 0 <= k < |Candidates(items, counts)| ==>
              exists i :: 0 <= i < |items| && items[i] == Candidates(items, counts)[k] &&
                          forall j :: 0 <= j < |counts| ==> counts[i] <= counts[j]
    ensures forall i :: 0 <= i < |items| && (forall j :: 0 <= j < |counts| ==> counts[i] <= counts[j]) ==>
              items[i] in Candidates(items, counts)
  {
    CandidatesNonEmpty(items, counts);
    CandidatesAreLeast(items, counts);
    LeastAreCandidates(items, counts);
  }

  /** When no count is zero, `Lowest` over all of them is one of them and at most each. */
  lemma NoZeros<T>(items: seq<T>, counts: seq<int>)
    requires |items| == |counts| > 0
    requires forall i :: 0 <= i < |counts| ==> 0 <= counts[i] < IntMax
    requires |Picks(items, counts, 0, |items|)| == 0
    ensures forall i :: 0 <= i < |counts| ==> counts[i] != 0
    ensures exists m :: 0 <= m < |counts| && counts[m] == Lowest(counts, |counts|)
    ensures forall i :: 0 <= i < |counts| ==> Lowest(counts, |counts|) <= counts[i]
  {
    PicksAll(items, counts, 0, |items|);
    assert counts[0] != 0;
    LowestAttained(counts, |counts|);
    LowestBelow(counts, |counts|);
  }

  /** There is always something to pick from. */
  lemma CandidatesNonEmpty<T>(items: seq<T>, counts: seq<int>)
    requires |items| == |counts| > 0
    requires forall i :: 0 <= i < |counts| ==> 0 <= counts[i] < IntMax
    ensures |Candidates(items, counts)| > 0
  {
    var n := |items|;
    if |Picks(items, counts, 0, n)| == 0 {
      NoZeros(items, counts);
      var m :| 0 <= m < n && counts[m] == Lowest(counts, n);
      PicksAll(items, counts, Lowest(counts, n), n);
      assert items[m] in Candidates(items, counts);
    }
  }

  /** Each candidate has a count no greater than any other item's. */
  lemma CandidatesAreLeast<T>(items: seq<T>, counts: seq<int>)
    requires |items| == |counts| > 0
    requires forall i :: 0 <= i < |counts| ==> 0 <= counts[i] < IntMax
    ensures forall k :: 0 <= k < |Candidates(items, counts)| ==>
              exists i :: 0 <= i < |items| && items[i] == Candidates(items, counts)[k] &&
                          forall j :: 0 <= j < |counts| ==> counts[i] <= counts[j]
  {
    var n := |items|;
    var zeros := Picks(items, counts, 0, n);
    var v := if |zeros| > 0 then 0 else Lowest(counts, n);
    if |zeros| == 0 {
      NoZeros(items, counts);
    }
    var c := Candidates(items, counts);
    assert c == Picks(items, counts, v, n);
    forall k | 0 <= k < |c|
      ensures exists i :: 0 <= i < |items| && items[i] == c[k] && forall j :: 0 <= j < |counts| ==> counts[i] <= counts[j]
    {
      PickedFrom(items, counts, v, n, k);
    }
  }

  /** Every item of least count is a candidate. */
  lemma LeastAreCandidates<T>(items: seq<T>, counts: seq<int>)
    requires |items| == |counts| > 0
    requires forall i :: 0 <= i < |counts| ==> 0 <= counts[i] < IntMax
    ensures forall i :: 0 <= i < |items| && (forall j :: 0 <= j < |counts| ==> counts[i] <= counts[j]) ==>
              items[i] in Candidates(items, counts)
  {
    var n := |items|;
    var zeros := Picks(items, counts, 0, n);
    if |zeros| > 0 {
      PickedFrom(items, counts, 0, n, 0);
      PicksAll(items, counts, 0, n);
    } else {
      NoZeros(items, counts);
      PicksAll(items, counts, Lowest(counts, n), n);
    }
  }

  /** A draw below the list length picks that very entry. */
  lemma SmallRemainder(k: nat, n: nat)
    requires k < n
    ensures k % n == k
  {
  }

  class SpawnService {
    const board: Board
    /** The configured gems (`Gems`) and the bomb prefab (`Bomb`). */
    const gems: seq<Piece>
    const bomb: Piece
    /** `BombChance`, in percent. */
    const bombChance: real

    constructor (board: Board, gems: seq<Piece>, bomb: Piece, bombChance: real)
      ensures this.board == board && this.gems == gems && this.bomb == bomb && this.bombChance == bombChance
    {
      this.board := board;
      this.gems := gems;
      this.bomb := bomb;
      this.bombChance := bombChance;
    }

    /** The match counts at `p` of the first `n` configured gems, in list order. */
    ghost function CountsUpTo(g: Grid, p: GridPosition, n: nat): (r: seq<int>)
      requires board.Fits(g) && n <= |gems|
      ensures |r| == n
    {
      if n == 0 then [] else CountsUpTo(g, p, n - 1) + [board.MatchCount(g, p, gems[n - 1].Kind()) as int]
    }

    /** The match count of each configured gem at `p`, in list order. */
    ghost function CountsAt(g: Grid, p: GridPosition): (r: seq<int>)
      requires board.Fits(g)
      ensures |r| == |gems|
    {
      CountsUpTo(g, p, |gems|)
    }

    /** Entry `i` of `CountsUpTo` is the match count of gem `i`. */
    lemma {:induction false} CountsEntry(g: Grid, p: GridPosition, n: nat)
      requires board.Fits(g) && n <= |gems|
      ensures forall i :: 0 <= i < n ==> CountsUpTo(g, p, n)[i] == board.MatchCount(g, p, gems[i].Kind())
    {
      if n > 0 {
        CountsEntry(g, p, n - 1);
      }
    }

    /** On a board this size every match count stays below `IntMax`. */
    lemma CountsBelowMax(g: Grid, p: GridPosition)
      requires board.Fits(g) && board.width + board.height < IntMax / 2
      ensures forall i :: 0 <= i < |gems| ==> 0 <= CountsAt(g, p)[i] < IntMax
    {
      CountsEntry(g, p, |gems|);
      forall i | 0 <= i < |gems|
        ensures CountsAt(g, p)[i] < IntMax
      {
        board.MatchCountBound(g, p, gems[i].Kind());
      }
    }

    /** The gems of least match count at `p` are never an empty list. */
    lemma SomeCandidate(g: Grid, p: GridPosition)
      requires board.Fits(g) && |gems| > 0 && board.width + board.height < IntMax / 2
      ensures |Candidates(gems, CountsAt(g, p))| > 0
    {
      CountsBelowMax(g, p);
      CandidatesNonEmpty(gems, CountsAt(g, p));
    }

    /** The gem `SelectNonMatchingGem` returns at `p` when the random draw is `roll`:
        one of least match count among the configured gems. */
    ghost function NonMatchingChoice(g: Grid, p: GridPosition, roll: nat): Piece
      requires board.Fits(g) && |gems| > 0 && board.width + board.height < IntMax / 2
    {
      var c := Candidates(gems, CountsAt(g, p));
      SomeCandidate(g, p);
      c[roll % |c|]
    }

    /** Whatever the draw, the chosen gem makes no more matches at `p` than any other
        configured gem. */
    lemma ChoiceIsLeast(g: Grid, p: GridPosition, roll: nat)
      requires board.Fits(g) && |gems| > 0 && board.width + board.height < IntMax / 2
      ensures exists i :: 0 <= i < |gems| && gems[i] == NonMatchingChoice(g, p, roll) &&
                forall j :: 0 <= j < |gems| ==> board.MatchCount(g, p, gems[i].Kind()) <= board.MatchCount(g, p, gems[j].Kind())
    {
      var counts := CountsAt(g, p);
      CountsBelowMax(g, p);
      CandidatesNonEmpty(gems, counts);
      CandidatesAreLeast(gems, counts);
      var c := Candidates(gems, counts);
      var k := roll % |c|;
      assert c[k] == NonMatchingChoice(g, p, roll);
      var i :| 0 <= i < |gems| && gems[i] == c[k] && forall j :: 0 <= j < |counts| ==> counts[i] <= counts[j];
      CountsEntry(g, p, |gems|);
      assert forall j :: 0 <= j < |gems| ==> board.MatchCount(g, p, gems[i].Kind()) <= board.MatchCount(g, p, gems[j].Kind());
    }

    /** Conversely, every configured gem of least match count at `p` is chosen by some draw. */
    lemma LeastIsChosen(g: Grid, p: GridPosition, i: nat)
      requires board.Fits(g) && board.width + board.height < IntMax / 2
      requires i < |gems| && forall j :: 0 <= j < |gems| ==> board.MatchCount(g, p, gems[i].Kind()) <= board.MatchCount(g, p, gems[j].Kind())
      ensures exists roll: nat :: NonMatchingChoice(g, p, roll) == gems[i]
    {
      var counts := CountsAt(g, p);
      CountsBelowMax(g, p);
      CountsEntry(g, p, |gems|);
      assert forall j :: 0 <= j < |counts| ==> counts[i] <= counts[j];
      LeastAreCandidates(gems, counts);
      var c := Candidates(gems, counts);
      var k :| 0 <= k < |c| && c[k] == gems[i];
      SmallRemainder(k, |c|);
      assert NonMatchingChoice(g, p, k) == c[k % |c|];
    }

    /** `SelectNonMatchingGem(position)`: the two list-building loops; `random.Next(0, n)`
        is `roll % n`. */
    method SelectNonMatchingGem(ghost g: Grid, position: GridPosition, roll: nat) returns (r: Piece)
      requires board.Shows(g) && |gems| > 0 && board.width + board.height < IntMax / 2
      ensures r == NonMatchingChoice(g, position, roll)
    {
      var validGems: seq<Piece> := [];
      var matchCounts: seq<int> := [];
      var lowestMatchCount := IntMax;
      for i := 0 to |gems|
        invariant matchCounts == CountsUpTo(g, position, i)
        invariant validGems == Picks(gems, matchCounts, 0, i)
        invariant lowestMatchCount == Lowest(matchCounts, i)
      {
        var matchCount := board.GetMatchCountAt(g, position, gems[i]);
        FirstCountsOnly(gems, matchCounts, [matchCount as int], 0, i);
        matchCounts := matchCounts + [matchCount];
        if matchCount == 0 {
          validGems := validGems + [gems[i]];
        } else if matchCount < lowestMatchCount {
          lowestMatchCount := matchCount;
        }
      }
      if |validGems| > 0 {
        return validGems[roll % |validGems|];
      }
      validGems := [];
      for i := 0 to |gems|
        invariant validGems == Picks(gems, matchCounts, lowestMatchCount, i)
      {
        if matchCounts[i] == lowestMatchCount {
          validGems := validGems + [gems[i]];
        }
      }
      SomeCandidate(g, position);
      return validGems[roll % |validGems|];
    }

    /** `SpawnGem(position, gemToSpawn)`: the bomb replaces the gem when the chance draw
        `draw` falls below `BombChance`; the new piece is stored in its cell. */
    method SpawnGem(position: GridPosition, gemToSpawn: Piece, draw: real)
      requires board.Valid() && board.InBounds(position)
      modifies board.cells
      ensures board.cells[position.x, position.y] != null && fresh(board.cells[position.x, position.y])
      ensures board.cells[position.x, position.y].data == (if draw < bombChance then bomb else gemToSpawn).data
      ensures board.cells[position.x, position.y].position == position
      ensures board.cells[position.x, position.y].prevPosition == position
      ensures board.cells[position.x, position.y].justSpawned
      ensures !board.cells[position.x, position.y].isMatch && !board.cells[position.x, position.y].isSwap
      ensures forall i, j :: 0 <= i < board.width && 0 <= j < board.height && (i != position.x || j != position.y) ==>
                board.cells[i, j] == old(board.cells[i, j])
    {
      var toSpawn := gemToSpawn;
      if draw < bombChance {
        toSpawn := bomb;
      }
      var gem := Pieces.SpawnGem(toSpawn, position);
      board.SetGem(position.x, position.y, gem);
    }

    /** `SpawnTopX(x)`: only an empty top cell of column `x` is refilled, with the gem
        `SelectNonMatchingGem` picks for it (or the bomb). */
    method SpawnTopX(ghost g: Grid, x: int, roll: nat, draw: real)
      requires board.Shows(g) && 0 <= x < board.width && board.height > 0
      requires (|gems| > 0 || g[x][board.height - 1] != null) && board.width + board.height < IntMax / 2
      modifies board.cells
      ensures var top := GridPosition(x, board.height - 1);
              if g[x][top.y] != null then board.cells[x, top.y] == g[x][top.y]
              else
                board.cells[x, top.y] != null && fresh(board.cells[x, top.y]) &&
                board.cells[x, top.y].data == (if draw < bombChance then bomb else NonMatchingChoice(g, top, roll)).data &&
                board.cells[x, top.y].position == top && board.cells[x, top.y].prevPosition == top &&
                board.cells[x, top.y].justSpawned && !board.cells[x, top.y].isMatch && !board.cells[x, top.y].isSwap
      ensures forall i, j :: 0 <= i < board.width && 0 <= j < board.height && (i != x || j != board.height - 1) ==>
                board.cells[i, j] == g[i][j]
    {
      var topY := board.height - 1;
      var topGem := board.GetGem(x, topY);
      if topGem == null {
        var gemToSpawn := SelectNonMatchingGem(g, GridPosition(x, topY), roll);
        SpawnGem(GridPosition(x, topY), gemToSpawn, draw);
      }
    }
  }
}
