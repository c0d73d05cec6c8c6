/** Gravity, one step at a time: `DropService.DropSingleX` (one column) and the older
    `BoardService.DropSingleRow` (every column). Both scan a column upward from row 1 and
    let the first piece that has an empty cell below it fall by one row. */
module Dropping {
  import opened Positions
  import opened Pieces
  import opened Boards

  /** A column of the board, bottom row first. */
  type Column = seq<Piece?>

  /** Row `y` holds a piece the drop has to wait for: one still moving or just spawned,
      as recorded in `busy`. */
  predicate Waits(col: Column, busy: set<Piece>, y: nat)
    requires y < |col|
  {
    col[y] != null && col[y] in busy
  }

  /** The piece at row `y` is at rest and the cell below it is empty. */
  predicate Falls(col: Column, busy: set<Piece>, y: nat)
    requires 1 <= y < |col|
  {
    col[y] != null && col[y] !in busy && col[y - 1] == null
  }

  /** The row the upward scan from `y` stops at: the first whose piece falls, or a row
      at or past the top when none does. */
  function FirstFall(col: Column, busy: set<Piece>, y: nat): (r: nat)
    requires 1 <= y
    ensures y <= r
    decreases |col| - y
  {
    if y >= |col| then y
    else if Falls(col, busy, y) then y
    else FirstFall(col, busy, y + 1)
  }

  /** What one drop step reports for the column: a piece fell, or the scan passed a
      piece it had to wait for. */
  predicate Unsettled(col: Column, busy: set<Piece>)
  {
    var f := FirstFall(col, busy, 1);
    f < |col| || exists y :: 1 <= y < f && y < |col| && Waits(col, busy, y)
  }

  /** The column after one drop step: the falling piece moves into the empty cell below. */
  function Dropped(col: Column, busy: set<Piece>): Column
  {
    var f := FirstFall(col, busy, 1);
    if f < |col| then col[f - 1 := col[f]][f := null] else col
  }

  /** Every column of `g` after one drop step. */
  function DroppedAll(g: Grid, busy: set<Piece>): (r: Grid)
    ensures |r| == |g|
  {
    seq(|g|, i requires 0 <= i < |g| => Dropped(g[i], busy))
  }

  /** `p` one row lower when `fell`, else `p`. */
  function Lowered(p: GridPosition, fell: bool): GridPosition
  {
    if fell then p.(y := p.y - 1) else p
  }

  /** The pieces standing in `col`. */
  function ColumnPieces(col: Column): set<Piece>
  {
    set p: Piece | p in col
  }

  /** `busy` is exactly the set of the column's pieces that are moving or just spawned. */
  ghost predicate Flags(col: Column, busy: set<Piece>)
    reads ColumnPieces(col)
  {
    forall y :: 0 <= y < |col| && col[y] != null ==> (col[y] in busy <==> col[y].isMoving || col[y].justSpawned)
  }

  /** No piece stands in two cells of `g`. */
  predicate Injective(g: Grid)
  {
    forall i, j, k, l ::
      0 <= i < |g| && 0 <= j < |g[i]| && 0 <= k < |g| && 0 <= l < |g[k]| && g[i][j] != null && g[i][j] == g[k][l] ==>
        i == k && j == l
  }

  /** The number of pieces among the first `n` rows of `col`. */
  function Count(col: Column, n: nat): nat
    requires n <= |col|
  {
    if n == 0 then 0 else Count(col, n - 1) + (if col[n - 1] != null then 1 else 0)
  }

  /** The number of pieces in the first `n` columns of `g`. */
  function Total(g: Grid, n: nat): nat
    requires n <= |g|
  {
    if n == 0 then 0 else Total(g, n - 1) + Count(g[n - 1], |g[n - 1]|)
  }

  /** The scan stops at the first falling row at or above `y`, and only there. */
  lemma {:induction false} FirstFallIsFirst(col: Column, busy: set<Piece>, y: nat)
    requires 1 <= y
    ensures FirstFall(col, busy, y) < |col| ==> Falls(col, busy, FirstFall(col, busy, y))
    ensures forall k :: y <= k < FirstFall(col, busy, y) && k < |col| ==> !Falls(col, busy, k)
    decreases |col| - y
  {
    if y < |col| && !Falls(col, busy, y) {
      FirstFallIsFirst(col, busy, y + 1);
    }
  }

  /** A drop step reports nothing exactly when the column is at rest: no piece in rows
      1 and up is waited for, and none has an empty cell below it. */
  lemma SettledIff(col: Column, busy: set<Piece>)
    ensures !Unsettled(col, busy) <==>
              forall y :: 1 <= y < |col| && col[y] != null ==> col[y] !in busy && col[y - 1] != null
  {
    FirstFallIsFirst(col, busy, 1);
    var f := FirstFall(col, busy, 1);
    if !Unsettled(col, busy) {
      forall y | 1 <= y < |col| && col[y] != null
        ensures col[y] !in busy && col[y - 1] != null
      {
        assert !Waits(col, busy, y);
        assert !Falls(col, busy, y);
      }
    } else if f < |col| {
      assert Falls(col, busy, f);
    } else {
      var y :| 1 <= y < f && y < |col| && Waits(col, busy, y);
      assert col[y] != null && col[y] in busy;
    }
  }

  /** Writing one cell changes the count by what leaves and what arrives. */
  lemma {:induction false} CountUpdate(col: Column, i: nat, v: Piece?, n: nat)
    requires i < |col| && n <= |col|
    ensures Count(col[i := v], n) ==
              Count(col, n) - (if i < n && col[i] != null then 1 else 0) + (if i < n && v != null then 1 else 0)
  {
    if n > 0 {
      CountUpdate(col, i, v, n - 1);
    }
  }

  /** A drop step keeps the number of pieces in the column. */
  lemma CountKept(col: Column, busy: set<Piece>)
    ensures |Dropped(col, busy)| == |col|
    ensures Count(Dropped(col, busy), |col|) == Count(col, |col|)
  {
    FirstFallIsFirst(col, busy, 1);
    var f := FirstFall(col, busy, 1);
    if f < |col| {
      var mid := col[f - 1 := col[f]];
      CountUpdate(col, f - 1, col[f], |col|);
      CountUpdate(mid, f, null, |col|);
    }
  }

  /** The piece in row 0 never moves, and only the two cells next to the falling
      piece's row change. */
  lemma BottomStays(col: Column, busy: set<Piece>)
    ensures |Dropped(col, busy)| == |col|
    ensures |col| > 0 && col[0] != null ==> Dropped(col, busy)[0] == col[0]
    ensures forall y :: 0 <= y < |col| && Dropped(col, busy)[y] != col[y] ==>
              var f := FirstFall(col, busy, 1); f < |col| && (y == f || y == f - 1)
  {
    FirstFallIsFirst(col, busy, 1);
  }

  /** A drop step over every column keeps the number of pieces on the board. */
  lemma {:induction false} TotalKept(g: Grid, busy: set<Piece>, n: nat)
    requires n <= |g|
    ensures Total(DroppedAll(g, busy), n) == Total(g, n)
  {
    if n > 0 {
      TotalKept(g, busy, n - 1);
      CountKept(g[n - 1], busy);
    }
  }

  /** The loop shared by `DropSingleX` and each column of `DropSingleRow`: scan column
      `x` from row 1 up; a waited-for piece only sets the result, the first piece with an
      empty cell below falls one row (its `Position.Y` drops by one) and ends the scan. */
  method DropColumn(board: Board, ghost g: Grid, ghost busy: set<Piece>, x: int) returns (anyDropped: bool)
    requires board.Shows(g) && 0 <= x < board.width && Flags(g[x], busy)
    modifies board.cells, ColumnPieces(g[x])`position
    ensures board.Shows(g[x := Dropped(g[x], busy)])
    ensures anyDropped == Unsettled(g[x], busy)
    ensures var f := FirstFall(g[x], busy, 1);
            forall p :: p in ColumnPieces(g[x]) ==>
              p.position == if f < board.height && p == g[x][f] then old(p.position).(y := old(p.position).y - 1) else old(p.position)
  {
    ghost var col := g[x];
    anyDropped := false;
    var y := 1;
    while y < board.height
      invariant 1 <= y && (y <= board.height || y == 1)
      invariant board.Shows(g) && unchanged(ColumnPieces(col))
      invariant FirstFall(col, busy, y) == FirstFall(col, busy, 1)
      invariant anyDropped <==> exists k :: 1 <= k < y && k < |col| && Waits(col, busy, k)
    {
      var currentGem := board.GetGem(x, y);
      var gemBelow := board.GetGem(x, y - 1);
      if currentGem != null && (currentGem.isMoving || currentGem.justSpawned) {
        assert Waits(col, busy, y);
        anyDropped := true;
        y := y + 1;
        continue;
      }
      if currentGem != null && gemBelow == null {
        assert Falls(col, busy, y);
        currentGem.position := currentGem.position.(y := currentGem.position.y - 1);
        board.SetGem(x, y - 1, currentGem);
        board.SetGem(x, y, null);
        anyDropped := true;
        break;
      }
      y := y + 1;
    }
  }

  /** `DropService`: gravity for one column at a time. */
  class DropService {
    const board: Board

    constructor (board: Board)
      ensures this.board == board
    {
      this.board := board;
    }

    /** `DropSingleX(x)`: at most one piece of column `x` falls, by one row. */
    method DropSingleX(ghost g: Grid, ghost busy: set<Piece>, x: int) returns (anyDropped: bool)
      requires board.Shows(g) && 0 <= x < board.width && Flags(g[x], busy)
      modifies board.cells, ColumnPieces(g[x])`position
      ensures board.Shows(g[x := Dropped(g[x], busy)])
      ensures anyDropped == Unsettled(g[x], busy)
      ensures var f := FirstFall(g[x], busy, 1);
              forall p :: p in ColumnPieces(g[x]) ==>
                p.position == if f < board.height && p == g[x][f] then old(p.position).(y := old(p.position).y - 1) else old(p.position)
    {
      anyDropped := DropColumn(board, g, busy, x);
    }
  }

  /** The older `BoardService`: gravity for the whole board at once. */
  class BoardService {
    const board: Board

    constructor (board: Board)
      ensures this.board == board
    {
      this.board := board;
    }

    /** After the first `x` columns of `DropSingleRow`: those columns have had their drop
        step, the rest are as `g` shows, the busy flags are as `busy` records, and on a
        board where no piece stands twice only the fallen pieces have moved, one row down
        from where `before` saw them. */
    ghost predicate RowProgress(g: Grid, busy: set<Piece>, x: nat, cur: Grid, before: map<Piece, GridPosition>)
      requires board.Fits(g)
      reads board.cells, board.PiecesIn(g)
    {
      board.Shows(cur) && |cur| == |g| && x <= board.width &&
      (forall i :: 0 <= i < board.width ==> cur[i] == if i < x then Dropped(g[i], busy) else g[i]) &&
      (forall i :: 0 <= i < board.width ==> Flags(g[i], busy)) &&
      (forall p :: p in board.PiecesIn(g) ==> p in before) &&
      (Injective(g) ==>
         forall i, j :: 0 <= i < board.width && 0 <= j < board.height && g[i][j] != null ==>
           g[i][j].position == Lowered(before[g[i][j]], i < x && j == FirstFall(g[i], busy, 1)))
    }

    /** `DropSingleRow()`: the column scan for every column in turn, so at most one piece
        per column falls; the result says whether any column was unsettled. */
    method DropSingleRow(ghost g: Grid, ghost busy: set<Piece>) returns (anyDropped: bool)
      requires board.Shows(g) && forall i :: 0 <= i < board.width ==> Flags(g[i], busy)
      modifies board.cells, board.PiecesIn(g)`position
      ensures board.Shows(DroppedAll(g, busy))
      ensures anyDropped <==> exists i :: 0 <= i < board.width && Unsettled(g[i], busy)
      ensures Injective(g) ==>
                forall i, j :: 0 <= i < board.width && 0 <= j < board.height && g[i][j] != null ==>
                  g[i][j].position == Lowered(old(g[i][j].position), j == FirstFall(g[i], busy, 1))
    {
      anyDropped := false;
      ghost var cur := g;
      ghost var before := map p | p in board.PiecesIn(g) :: p.position;
      for x := 0 to board.width
        invariant board.Fits(g) && RowProgress(g, busy, x, cur, before)
        invariant anyDropped <==> exists i :: 0 <= i < x && Unsettled(g[i], busy)
      {
        var d := DropStep(g, busy, x, cur, before);
        anyDropped := anyDropped || d;
        cur := cur[x := Dropped(cur[x], busy)];
      }
      assert cur == DroppedAll(g, busy);
    }

    /** Column `x` of `DropSingleRow`. */
    method DropStep(ghost g: Grid, ghost busy: set<Piece>, x: nat, ghost cur: Grid, ghost before: map<Piece, GridPosition>)
      returns (d: bool)
      requires x < board.width && board.Fits(g) && RowProgress(g, busy, x, cur, before)
      modifies board.cells, board.PiecesIn(g)`position
      ensures RowProgress(g, busy, x + 1, cur[x := Dropped(cur[x], busy)], before)
      ensures d == Unsettled(g[x], busy)
    {
      assert ColumnPieces(cur[x]) <= board.PiecesIn(g) by {
        forall p | p in ColumnPieces(cur[x])
          ensures p in board.PiecesIn(g)
        {
          var j :| 0 <= j < |g[x]| && g[x][j] == p;
        }
      }
      d := DropColumn(board, cur, busy, x);
      forall i | 0 <= i < board.width
        ensures Flags(g[i], busy)
      {
        assert forall p :: p in ColumnPieces(g[i]) ==> p.isMoving == old(p.isMoving) && p.justSpawned == old(p.justSpawned);
      }
      if Injective(g) {
        var f := FirstFall(g[x], busy, 1);
        forall i, j | 0 <= i < board.width && 0 <= j < board.height && g[i][j] != null
          ensures g[i][j].position == Lowered(before[g[i][j]], i < x + 1 && j == FirstFall(g[i], busy, 1))
        {
          if i == x {
            assert g[i][j] in ColumnPieces(g[x]);
            assert f < board.height && g[x][j] == g[x][f] ==> j == f;
          } else {
            assert g[i][j] !in ColumnPieces(g[x]);
          }
        }
      }
    }
  }
}
