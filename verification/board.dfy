/** The grid: a `width x height` array of optional pieces, bounds checks, and the
    contiguous same-type run counting shared by `GameBoard.GetMatchCountAt`,
    `MatchCounterService` and the older `GameBoard.MatchesAt`. */
module Boards {
  import opened Positions
  import opened Pieces

  /** A unit step along one axis: (+-1, 0) or (0, +-1). */
  predicate IsStep(dx: int, dy: int) {
    (dx == 0 && (dy == 1 || dy == -1)) || (dy == 0 && (dx == 1 || dx == -1))
  }

  /** The coordinate `k` unit steps `d` away from `c`. */
  function Along(c: int, d: int, k: int): int {
    if d == 1 then c + k else if d == -1 then c - k else c
  }

  /** One step further along, then k more, is k + 1 steps along. */
  lemma AlongStep(c: int, d: int, k: int)
    requires -1 <= d <= 1
    ensures Along(c + d, d, k) == Along(c, d, k + 1)
  {
  }

  lemma AppendAssoc<T>(a: seq<T>, b: seq<T>, c: seq<T>)
    ensures (a + b) + c == a + (b + c)
  {
  }

  /** The elements of a sequence of pieces, as a set. */
  function Elements(s: seq<Piece>): set<Piece> {
    set p | p in s
  }

  /** The contents of the board at one moment, column by column: `g[x][y]` is cell
      (x, y). Specifications are stated over such a value, so they do not change when
      only the pieces' own fields do. */
  type Grid = seq<seq<Piece?>>

  class Board {
    const width: nat
    const height: nat
    const cells: array2<Piece?>

    predicate Valid() {
      cells.Length0 == width && cells.Length1 == height
    }

    /** `GameBoard(settings)`: height from `RowsSize`, width from `ColsSize`, all cells empty. */
    constructor (rowsSize: nat, colsSize: nat)
      ensures Valid() && fresh(cells)
      ensures width == colsSize && height == rowsSize
      ensures forall i, j :: 0 <= i < width && 0 <= j < height ==> cells[i, j] == null
    {
      height := rowsSize;
      width := colsSize;
      cells := new Piece?[colsSize, rowsSize]((i, j) => null);
    }

    predicate IsValidPosition(x: int, y: int) {
      0 <= x < width && 0 <= y < height
    }

    predicate InBounds(p: GridPosition) {
      IsValidPosition(p.x, p.y)
    }

    /** `g` has the board's dimensions. */
    predicate Fits(g: Grid) {
      |g| == width && forall i :: 0 <= i < width ==> |g[i]| == height
    }

    /** The board's cells currently hold exactly `g`. */
    ghost predicate Shows(g: Grid)
      reads cells
    {
      Valid() && Fits(g) && forall i, j :: 0 <= i < width && 0 <= j < height ==> cells[i, j] == g[i][j]
    }

    /** What the board's cells hold now. */
    ghost function Contents(): (g: Grid)
      requires Valid()
      reads cells
      ensures Shows(g)
    {
      seq(width, i reads cells requires 0 <= i < width => seq(height, j reads cells requires 0 <= j < height => cells[i, j]))
    }

    /** Every piece in `g`. */
    ghost function PiecesIn(g: Grid): set<Piece>
      requires Fits(g)
    {
      set i, j | 0 <= i < width && 0 <= j < height && g[i][j] != null :: g[i][j] as Piece
    }

    /** `GetGem(x, y)`: raw array access, so the coordinates must be in bounds. */
    function GetGem(x: int, y: int): Piece?
      requires Valid() && IsValidPosition(x, y)
      reads cells
    {
      cells[x, y]
    }

    /** `SetGem(x, y, gem)`: writes one cell and nothing else. */
    method SetGem(x: int, y: int, gem: Piece?)
      requires Valid() && IsValidPosition(x, y)
      modifies cells
      ensures cells[x, y] == gem
      ensures forall i, j :: 0 <= i < width && 0 <= j < height && (i != x || j != y) ==> cells[i, j] == old(cells[i, j])
    {
      cells[x, y] := gem;
    }

    /** Cell (x, y) of `g` holds a piece of type `t`. */
    predicate HoldsType(g: Grid, x: int, y: int, t: GemType)
      requires Fits(g)
    {
      IsValidPosition(x, y) && g[x][y] != null && g[x][y].Kind() == t
    }

    /** Cells left to visit from (x, y) in direction (dx, dy) before leaving the board. */
    function Reach(x: int, y: int, dx: int, dy: int): int {
      if dx == 1 then width - x else if dx == -1 then x + 1 else if dy == 1 then height - y else y + 1
    }

    /** The maximal run of type-`t` pieces starting one step from (x, y) in direction
        (dx, dy); the start cell itself is not inspected. */
    function Run(g: Grid, x: int, y: int, dx: int, dy: int, t: GemType): (r: seq<Piece>)
      requires Fits(g) && IsStep(dx, dy)
      ensures forall k :: 0 <= k < |r| ==> r[k].Kind() == t
      ensures |r| <= if Reach(x, y, dx, dy) < 1 then 0 else Reach(x, y, dx, dy) - 1
      decreases if Reach(x, y, dx, dy) < 0 then 0 else Reach(x, y, dx, dy)
    {
      if HoldsType(g, x + dx, y + dy, t) then [g[x + dx][y + dy] as Piece] + Run(g, x + dx, y + dy, dx, dy, t) else []
    }

    /** A run that does not stop at once is its first piece followed by the run from there. */
    lemma RunCons(g: Grid, x: int, y: int, dx: int, dy: int, t: GemType)
      requires Fits(g) && IsStep(dx, dy) && HoldsType(g, x + dx, y + dy, t)
      ensures Run(g, x, y, dx, dy, t) == [g[x + dx][y + dy] as Piece] + Run(g, x + dx, y + dy, dx, dy, t)
    {
    }

    /** The k-th piece of a run sits k+1 steps away. */
    lemma {:induction false} RunMember(g: Grid, x: int, y: int, dx: int, dy: int, t: GemType, k: nat)
      requires Fits(g) && IsStep(dx, dy) && k < |Run(g, x, y, dx, dy, t)|
      ensures HoldsType(g, Along(x, dx, k + 1), Along(y, dy, k + 1), t)
      ensures Run(g, x, y, dx, dy, t)[k] == g[Along(x, dx, k + 1)][Along(y, dy, k + 1)]
      decreases k
    {
      if k == 0 {
        AlongStep(x, dx, 0);
        AlongStep(y, dy, 0);
      } else {
        RunCons(g, x, y, dx, dy, t);
        RunMember(g, x + dx, y + dy, dx, dy, t, k - 1);
        AlongStep(x, dx, k);
        AlongStep(y, dy, k);
      }
    }

    /** The cell just past a run does not continue it (edge, empty cell or another type). */
    lemma {:induction false} RunStops(g: Grid, x: int, y: int, dx: int, dy: int, t: GemType)
      requires Fits(g) && IsStep(dx, dy)
      ensures var k := |Run(g, x, y, dx, dy, t)|; !HoldsType(g, Along(x, dx, k + 1), Along(y, dy, k + 1), t)
      decreases if Reach(x, y, dx, dy) < 0 then 0 else Reach(x, y, dx, dy)
    {
      var k := |Run(g, x, y, dx, dy, t)|;
      if HoldsType(g, x + dx, y + dy, t) {
        RunStops(g, x + dx, y + dy, dx, dy, t);
        RunCons(g, x, y, dx, dy, t);
        AlongStep(x, dx, k);
        AlongStep(y, dy, k);
      } else {
        AlongStep(x, dx, 0);
        AlongStep(y, dy, 0);
      }
    }

    /** A run lies on the board, so it is no longer than the board along its axis. */
    lemma RunLength(g: Grid, x: int, y: int, dx: int, dy: int, t: GemType)
      requires Fits(g) && IsStep(dx, dy)
      ensures dx != 0 ==> |Run(g, x, y, dx, dy, t)| <= width
      ensures dy != 0 ==> |Run(g, x, y, dx, dy, t)| <= height
    {
      var k := |Run(g, x, y, dx, dy, t)|;
      if k > 0 {
        RunMember(g, x, y, dx, dy, t, 0);
        RunMember(g, x, y, dx, dy, t, k - 1);
      }
    }

    /** `CountMatchingGemsInDirection`: the read-only `while` loop. */
    method CountMatchingGemsInDirection(ghost g: Grid, start: GridPosition, dx: int, dy: int, t: GemType) returns (count: nat)
      requires Shows(g) && IsStep(dx, dy)
      ensures count == |Run(g, start.x, start.y, dx, dy, t)|
    {
      count := 0;
      var x, y := start.x + dx, start.y + dy;
      ghost var px, py := start.x, start.y;
      while IsValidPosition(x, y) && cells[x, y] != null && cells[x, y].Kind() == t
        invariant x == px + dx && y == py + dy
        invariant count + |Run(g, px, py, dx, dy, t)| == |Run(g, start.x, start.y, dx, dy, t)|
        decreases if Reach(x, y, dx, dy) < 0 then 0 else Reach(x, y, dx, dy)
      {
        count := count + 1;
        px, py := x, y;
        x, y := x + dx, y + dy;
      }
    }

    /** `GetMatchingGemsInDirection`: the pieces the run loop yields, in order. */
    method GetMatchingGemsInDirection(ghost g: Grid, start: GridPosition, dx: int, dy: int, t: GemType) returns (gems: seq<Piece>)
      requires Shows(g) && IsStep(dx, dy)
      ensures gems == Run(g, start.x, start.y, dx, dy, t)
    {
      gems := [];
      var x, y := start.x + dx, start.y + dy;
      ghost var px, py := start.x, start.y;
      while IsValidPosition(x, y) && cells[x, y] != null && cells[x, y].Kind() == t
        invariant x == px + dx && y == py + dy
        invariant gems + Run(g, px, py, dx, dy, t) == Run(g, start.x, start.y, dx, dy, t)
        decreases if Reach(x, y, dx, dy) < 0 then 0 else Reach(x, y, dx, dy)
      {
        RunCons(g, px, py, dx, dy, t);
        AppendAssoc(gems, [g[x][y] as Piece], Run(g, x, y, dx, dy, t));
        gems := gems + [cells[x, y]];
        px, py := x, y;
        x, y := x + dx, y + dy;
      }
    }

    /** Same-type neighbours on both sides of `p` along one axis, `p` itself excluded. */
    function AxisCount(g: Grid, p: GridPosition, dx: int, dy: int, t: GemType): nat
      requires Fits(g) && IsStep(dx, dy)
    {
      |Run(g, p.x, p.y, -dx, -dy, t)| + |Run(g, p.x, p.y, dx, dy, t)|
    }

    /** The match count a piece of type `t` would have at `p`: each axis counts only
        when it already holds two same-type neighbours. */
    function MatchCount(g: Grid, p: GridPosition, t: GemType): nat
      requires Fits(g)
    {
      var h := AxisCount(g, p, 1, 0, t);
      var v := AxisCount(g, p, 0, 1, t);
      (if h >= 2 then h else 0) + (if v >= 2 then v else 0)
    }

    /** A match count is at most twice the board's width plus height. */
    lemma MatchCountBound(g: Grid, p: GridPosition, t: GemType)
      requires Fits(g)
      ensures MatchCount(g, p, t) <= 2 * (width + height)
    {
      RunLength(g, p.x, p.y, 1, 0, t);
      RunLength(g, p.x, p.y, -1, 0, t);
      RunLength(g, p.x, p.y, 0, 1, t);
      RunLength(g, p.x, p.y, 0, -1, t);
    }

    /** `GetMatchCountAt(position, gem)`: never writes, ignores the piece at `position`. */
    method GetMatchCountAt(ghost g: Grid, position: GridPosition, gem: Piece) returns (r: nat)
      requires Shows(g)
      ensures r == MatchCount(g, position, gem.Kind())
      ensures r == 0 || r >= 2
      ensures r == 0 <==> AxisCount(g, position, 1, 0, gem.Kind()) < 2 && AxisCount(g, position, 0, 1, gem.Kind()) < 2
    {
      var left := CountMatchingGemsInDirection(g, position, -1, 0, gem.Kind());
      var right := CountMatchingGemsInDirection(g, position, 1, 0, gem.Kind());
      var below := CountMatchingGemsInDirection(g, position, 0, -1, gem.Kind());
      var above := CountMatchingGemsInDirection(g, position, 0, 1, gem.Kind());
      var horizontal := left + right;
      var vertical := below + above;
      r := (if horizontal >= 2 then horizontal else 0) + (if vertical >= 2 then vertical else 0);
    }

    /** The older `MatchesAt`: a match on either axis. */
    method MatchesAt(ghost g: Grid, position: GridPosition, gem: Piece) returns (b: bool)
      requires Shows(g)
      ensures b <==> AxisCount(g, position, 1, 0, gem.Kind()) >= 2 || AxisCount(g, position, 0, 1, gem.Kind()) >= 2
      ensures b <==> MatchCount(g, position, gem.Kind()) != 0
    {
      var left := CountMatchingGemsInDirection(g, position, -1, 0, gem.Kind());
      var right := CountMatchingGemsInDirection(g, position, 1, 0, gem.Kind());
      var below := CountMatchingGemsInDirection(g, position, 0, -1, gem.Kind());
      var above := CountMatchingGemsInDirection(g, position, 0, 1, gem.Kind());
      b := left + right >= 2 || below + above >= 2;
    }

    /** The set `CheckMatchesInDirection` builds at (x, y): the piece plus its maximal
        same-type runs in both directions along one axis. */
    function AxisRun(g: Grid, x: int, y: int, dx: int, dy: int): (s: set<Piece>)
      requires Fits(g) && IsValidPosition(x, y) && g[x][y] != null && IsStep(dx, dy)
      ensures g[x][y] in s
      ensures forall p :: p in s ==> p.Kind() == g[x][y].Kind()
    {
      var t := g[x][y].Kind();
      {g[x][y] as Piece} + Elements(Run(g, x, y, dx, dy, t)) + Elements(Run(g, x, y, -dx, -dy, t))
    }

    /** Every piece of a run lies on the board. */
    lemma {:induction false} RunOnBoard(g: Grid, x: int, y: int, dx: int, dy: int, t: GemType)
      requires Fits(g) && IsStep(dx, dy)
      ensures Elements(Run(g, x, y, dx, dy, t)) <= PiecesIn(g)
      decreases if Reach(x, y, dx, dy) < 0 then 0 else Reach(x, y, dx, dy)
    {
      if HoldsType(g, x + dx, y + dy, t) {
        RunOnBoard(g, x + dx, y + dy, dx, dy, t);
        RunCons(g, x, y, dx, dy, t);
        assert g[x + dx][y + dy] in PiecesIn(g);
      }
    }

    lemma AxisRunOnBoard(g: Grid, x: int, y: int, dx: int, dy: int)
      requires Fits(g) && IsValidPosition(x, y) && g[x][y] != null && IsStep(dx, dy)
      ensures AxisRun(g, x, y, dx, dy) <= PiecesIn(g)
    {
      var t := g[x][y].Kind();
      RunOnBoard(g, x, y, dx, dy, t);
      RunOnBoard(g, x, y, -dx, -dy, t);
      assert g[x][y] in PiecesIn(g);
    }
  }
}
