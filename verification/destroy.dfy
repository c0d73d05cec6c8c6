/** `DestroyService` in both lineages: every non-null piece handed in scores its value
    and leaves its cell, but only while that cell still holds it. */
module Destroying {
  import opened Positions
  import opened Pieces
  import opened Boards
  import opened Scores

  /** The points a list of pieces is worth: nulls count nothing, a piece listed twice
      counts twice. */
  function TotalScore(gems: seq<Piece?>): int {
    if gems == [] then 0
    else
      var last := gems[|gems| - 1];
      TotalScore(gems[..|gems| - 1]) + (if last == null then 0 else last.ScoreValue())
  }

  /** Destroying two lists one after the other scores both totals. */
  lemma {:induction false} TotalScoreAppend(a: seq<Piece?>, b: seq<Piece?>)
    ensures TotalScore(a + b) == TotalScore(a) + TotalScore(b)
    decreases |b|
  {
    if b == [] {
      assert a + b == a;
    } else {
      var n := |b| - 1;
      assert (a + b)[..|a + b| - 1] == a + b[..n];
      TotalScoreAppend(a, b[..n]);
    }
  }

  /** The first k + 1 pieces are worth the first k and the next one. */
  lemma TotalScoreStep(gems: seq<Piece?>, k: int)
    requires 0 <= k < |gems|
    ensures TotalScore(gems[..k + 1]) == TotalScore(gems[..k]) + (if gems[k] == null then 0 else gems[k].ScoreValue())
  {
    assert gems[..k + 1][..k] == gems[..k];
  }

  /** Null entries are worth nothing. */
  lemma {:induction false} TotalScoreOfNulls(gems: seq<Piece?>)
    requires forall k :: 0 <= k < |gems| ==> gems[k] == null
    ensures TotalScore(gems) == 0
    decreases |gems|
  {
    if gems != [] {
      TotalScoreOfNulls(gems[..|gems| - 1]);
    }
  }

  /** Cell (i, j), which held `p` before the pass, is emptied by a pass over `gems`:
      `p` is listed and stands at (i, j). */
  predicate Clears(p: Piece?, gems: seq<Piece?>, i: int, j: int)
    reads p
  {
    p != null && p in gems && p.position == GridPosition(i, j)
  }

  /** One more listed piece clears only the cell it stands on, if it held it. */
  lemma ClearsStep(gems: seq<Piece?>, gem: Piece?)
    ensures forall p: Piece?, i, j :: Clears(p, gems + [gem], i, j) <==> Clears(p, gems, i, j) || (gem != null && p == gem && gem.position == GridPosition(i, j))
  {
  }

  /** Every listed piece knows an on-board position, as the unchecked `GetGem(position)` needs. */
  predicate Placed(board: Board, gems: seq<Piece?>)
    reads gems
  {
    forall k :: 0 <= k < |gems| && gems[k] != null ==> board.InBounds(gems[k].position)
  }

  class DestroyService {
    const board: Board
    const scores: ScoreService

    constructor (board: Board, scores: ScoreService)
      ensures this.board == board && this.scores == scores
    {
      this.board := board;
      this.scores := scores;
    }

    /** `DestroyMatchedGems(gems)` of the newer lineage: skip nulls, add each piece's
        value, then destroy it. */
    method DestroyMatchedGems(gems: seq<Piece?>)
      requires board.Valid() && Placed(board, gems) && scores.Valid()
      modifies board.cells, scores
      ensures scores.Valid()
      ensures scores.score == old(scores.score) + TotalScore(gems)
      ensures forall i, j :: 0 <= i < board.width && 0 <= j < board.height ==>
                board.cells[i, j] == if Clears(old(board.cells[i, j]), gems, i, j) then null else old(board.cells[i, j])
    {
      for k := 0 to |gems|
        invariant scores.Valid() && scores.score == old(scores.score) + TotalScore(gems[..k])
        invariant forall i, j :: 0 <= i < board.width && 0 <= j < board.height ==>
                    board.cells[i, j] == if Clears(old(board.cells[i, j]), gems[..k], i, j) then null else old(board.cells[i, j])
      {
        var gem := gems[k];
        TotalScoreStep(gems, k);
        ClearsStep(gems[..k], gem);
        assert gems[..k + 1] == gems[..k] + [gem];
        if gem == null {
          continue;
        }
        scores.AddScore(gem.ScoreValue());
        DestroyGem(gem);
      }
      assert gems[..|gems|] == gems;
    }

    /** `DestroyGem(piece)`: the view and pool calls are outside the model; the cell at
        the piece's position is emptied only if it still holds this piece. */
    method DestroyGem(piece: Piece?)
      requires board.Valid() && (piece != null ==> board.InBounds(piece.position))
      modifies board.cells
      ensures forall i, j :: 0 <= i < board.width && 0 <= j < board.height ==>
                board.cells[i, j] == if piece != null && old(board.cells[i, j]) == piece && piece.position == GridPosition(i, j) then null else old(board.cells[i, j])
    {
      if piece == null {
        return;
      }
      if board.GetGem(piece.position.x, piece.position.y) == piece {
        board.SetGem(piece.position.x, piece.position.y, null);
      }
    }

    /** `DestroyGems(gems)` of the older lineage: the same pass with the older helper. */
    method DestroyGems(gems: seq<Piece?>)
      requires board.Valid() && Placed(board, gems) && scores.Valid()
      modifies board.cells, scores
      ensures scores.Valid()
      ensures scores.score == old(scores.score) + TotalScore(gems)
      ensures forall i, j :: 0 <= i < board.width && 0 <= j < board.height ==>
                board.cells[i, j] == if Clears(old(board.cells[i, j]), gems, i, j) then null else old(board.cells[i, j])
    {
      for k := 0 to |gems|
        invariant scores.Valid() && scores.score == old(scores.score) + TotalScore(gems[..k])
        invariant forall i, j :: 0 <= i < board.width && 0 <= j < board.height ==>
                    board.cells[i, j] == if Clears(old(board.cells[i, j]), gems[..k], i, j) then null else old(board.cells[i, j])
      {
        var gem := gems[k];
        TotalScoreStep(gems, k);
        ClearsStep(gems[..k], gem);
        assert gems[..k + 1] == gems[..k] + [gem];
        if gem != null {
          scores.AddScore(gem.ScoreValue());
          DestroyMatchedGemsAt(gem);
        }
      }
      assert gems[..|gems|] == gems;
    }

    /** `DestroyMatchedGemsAt(gem)`: the position is read before the piece goes back to
        its pool, and that cell is emptied only if it still holds the piece. */
    method DestroyMatchedGemsAt(gem: Piece?)
      requires board.Valid() && (gem != null ==> board.InBounds(gem.position))
      modifies board.cells
      ensures forall i, j :: 0 <= i < board.width && 0 <= j < board.height ==>
                board.cells[i, j] == if gem != null && old(board.cells[i, j]) == gem && gem.position == GridPosition(i, j) then null else old(board.cells[i, j])
    {
      if gem != null {
        var position := gem.position;
        if board.GetGem(position.x, position.y) == gem {
          board.SetGem(position.x, position.y, null);
        }
      }
    }
  }
}
