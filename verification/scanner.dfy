/** The whole-board scan of `FindAllMatches` and the blast resolution it triggers:
    `explosions`, the cluster list and the pieces' `IsMatch` flags are its only effects. */
module Scanning {
  import opened Wrappers
  import opened Positions
  import opened Pieces
  import opened Boards
  import opened Clusters

  /** A plain bomb clears a square, a colour bomb a disc. */
  datatype BlastShape = Square | Disc

  function SqDist(dx: int, dy: int): int {
    dx * dx + dy * dy
  }

  /** Cell (i, j) lies in the blast of radius `r` around `c`: the square
      [c.x-r, c.x+r] x [c.y-r, c.y+r], cut down to `dx^2+dy^2 <= r^2` for a disc. */
  predicate InBlast(c: GridPosition, r: int, shape: BlastShape, i: int, j: int) {
    c.x - r <= i <= c.x + r && c.y - r <= j <= c.y + r &&
    (shape == Disc ==> SqDist(i - c.x, j - c.y) <= r * r)
  }

  /** How a scan anchors its clusters. `GameBoard.FindAllMatches` hands every cluster
      the one position it was given (or none); `MatchService.FindAllMatches` is given
      both swap cells and anchors each run to the one its pieces occupy. */
  datatype AnchorRule = Shared(anchor: Option<GridPosition>) | FromSwap(first: Option<GridPosition>, second: Option<GridPosition>)

  /** The anchor a cluster may carry under `rule`. */
  predicate AnchorFits(rule: AnchorRule, m: MatchInfo)
    reads m.gems`position
  {
    match rule
    case Shared(anchor) => m.anchor == anchor
    case FromSwap(a, b) => if a.Some? && b.Some? then SwapAnchored(m, a.value, b.value) else m.anchor.None?
  }

  /** `GetUserActionPosForMatch`: no anchor unless both swap cells are given; otherwise
      the first swap cell found under a member (members are visited in the set's own
      order, the first cell tested before the second), or none. */
  method GetUserActionPosForMatch(gems: set<Piece>, a: Option<GridPosition>, b: Option<GridPosition>)
    returns (r: Option<GridPosition>)
    ensures a.None? || b.None? ==> r.None?
    ensures a.Some? && b.Some? ==> SwapAnchored(MatchInfo(gems, r), a.value, b.value)
    ensures AnchorFits(FromSwap(a, b), MatchInfo(gems, r))
  {
    if a.None? || b.None? {
      return None;
    }
    var rest := gems;
    while rest != {}
      invariant rest <= gems
      invariant forall p :: p in gems - rest ==> p.position != a.value && p.position != b.value
      decreases rest
    {
      var p :| p in rest;
      if p.position == a.value {
        return a;
      }
      if p.position == b.value {
        return b;
      }
      rest := rest - {p};
    }
    return None;
  }

  /** Merging keeps every cluster anchored as the rule allows. */
  lemma MergeKeepsFit(ms: seq<MatchInfo>, m: MatchInfo, rule: AnchorRule)
    requires forall k :: 0 <= k < |ms| ==> AnchorFits(rule, ms[k])
    requires AnchorFits(rule, m)
    ensures forall k :: 0 <= k < |Merge(ms, m)| ==> AnchorFits(rule, Merge(ms, m)[k])
  {
    match rule {
      case Shared(anchor) =>
        MergeKeepsAnchor(ms, m);
      case FromSwap(a, b) =>
        if a.Some? && b.Some? {
          MergeKeepsSwapAnchor(ms, m, a.value, b.value);
        } else {
          MergeKeepsAnchor(ms, m);
        }
    }
  }

  /** Two bounds in a row make one: what was added in two steps lies in the union of
      what each step may add. */
  lemma BoundStep<T>(e0: set<T>, e1: set<T>, e2: set<T>, a: set<T>, b: set<T>, c1: set<T>, c2: set<T>, c3: set<T>)
    requires e1 <= e0 + a + c1 && e2 <= e1 + b + c2 && c1 + c2 <= c3
    ensures e2 <= e0 + (a + b) + c3
  {
  }

  /** What left `u0` in two steps left it in one of them. */
  lemma FlipStep<T>(u0: set<T>, u1: set<T>, u2: set<T>, a1: set<T>, a2: set<T>)
    requires u0 - u1 <= a1 && u1 - u2 <= a2 && a1 <= a2
    ensures u0 - u2 <= a2
  {
  }

  /** The pieces of `s` whose `IsMatch` flag is false. */
  ghost function Unflagged(s: set<Piece>): set<Piece>
    reads s`isMatch
  {
    set p | p in s && !p.isMatch
  }

  /** Flags that only turn on, and only on pieces of `m` or `e`, which end flagged,
      leave unflagged exactly the pieces unflagged before and in neither. */
  lemma FlagsSettle<T>(u0: set<T>, u1: set<T>, m: set<T>, e: set<T>)
    requires u1 <= u0 && u0 - u1 <= m + e && u1 !! m && u1 !! e
    ensures u1 == u0 - m - e
  {
    forall x | x in u0 - m - e
      ensures x in u1
    {
      assert x !in m + e;
    }
  }

  class MatchScanner {
    const board: Board
    /** The newer lineage also chains plain bombs caught in a blast; the older one
        chains colour bombs only. */
    const chainsPlainBombs: bool
    var explosions: set<Piece>
    var matches: seq<MatchInfo>
    /** The board's pieces when the current scan began; the scan changes flags, never
        cells, so this is the universe every scan step talks about. */
    ghost var pieces: set<Piece>

    constructor (board: Board, chainsPlainBombs: bool)
      ensures this.board == board && this.chainsPlainBombs == chainsPlainBombs
      ensures explosions == {} && matches == []
    {
      this.board := board;
      this.chainsPlainBombs := chainsPlainBombs;
      explosions := {};
      matches := [];
      pieces := {};
    }

    /** A piece whose first match opens a blast of its own. */
    predicate Chains(p: Piece) {
      p.IsColorBomb() || (chainsPlainBombs && p.Kind() == Bomb)
    }

    function ShapeOf(p: Piece): BlastShape {
      if p.IsColorBomb() then Disc else Square
    }

    /** The pieces whose `IsMatch` flag is still false; it shrinks with every flag flip,
        which bounds the blast chain. */
    ghost function Unmatched(): set<Piece>
      reads this`pieces, pieces`isMatch
    {
      set p | p in pieces && !p.isMatch
    }

    /** Every piece in a cell of `g` is one of `pieces`. */
    ghost predicate OnBoard(g: Grid)
      requires board.Fits(g)
      reads this`pieces
    {
      forall i, j :: 0 <= i < board.width && 0 <= j < board.height && g[i][j] != null ==> g[i][j] in pieces
    }

    lemma AllOnBoard(g: Grid)
      requires board.Fits(g) && OnBoard(g)
      ensures board.PiecesIn(g) <= pieces
    {
    }

    /** Every exploding piece is a board piece whose flag is set. */
    ghost predicate ExplosionsMatched()
      reads this`explosions, this`pieces, pieces`isMatch
    {
      explosions <= pieces && explosions !! Unmatched()
    }

    /** The pieces inside the blast of some piece of `s`, each blast around that
        piece's own position. */
    ghost function ChainAreas(g: Grid, s: set<Piece>): set<Piece>
      requires board.Fits(g)
      reads s`position
    {
      set c, q | c in s && q in Area(g, c.position, c.BlastSize(), ShapeOf(c)) :: q
    }

    lemma ChainAreasGrow(g: Grid, a: set<Piece>, b: set<Piece>)
      requires board.Fits(g) && a <= b
      ensures ChainAreas(g, a) <= ChainAreas(g, b)
    {
    }

    /** The chaining pieces of `s`. */
    function Chained(s: set<Piece>): set<Piece> {
      set p | p in s && Chains(p)
    }

    /** Two steps in a row, from the unflagged pieces `u0` through `u1` to `u2`: the
        explosions each one adds beyond its own part lie in the blasts of the chaining
        pieces it flagged, and so the explosions of both lie in the two parts and the
        blasts of the chaining pieces flagged over both steps. */
    lemma ChainStep(g: Grid, e0: set<Piece>, e1: set<Piece>, e2: set<Piece>, a: set<Piece>, b: set<Piece>,
                    u0: set<Piece>, u1: set<Piece>, u2: set<Piece>)
      requires board.Fits(g) && u2 <= u1 <= u0
      requires e1 <= e0 + a + ChainAreas(g, Chained(u0 - u1))
      requires e2 <= e1 + b + ChainAreas(g, Chained(u1 - u2))
      ensures e2 <= e0 + (a + b) + ChainAreas(g, Chained(u0 - u2))
    {
      ChainAreasGrow(g, Chained(u0 - u1), Chained(u0 - u2));
      ChainAreasGrow(g, Chained(u1 - u2), Chained(u0 - u2));
      BoundStep(e0, e1, e2, a, b, ChainAreas(g, Chained(u0 - u1)), ChainAreas(g, Chained(u1 - u2)),
                ChainAreas(g, Chained(u0 - u2)));
    }

    /** The blasts of the chaining pieces flagged between a state with unflagged pieces
        `u0` and one with explosions `e` and unflagged pieces `u` have gone off: each of
        their pieces explodes and is flagged. */
    ghost predicate ChainFired(g: Grid, u0: set<Piece>, e: set<Piece>, u: set<Piece>)
      requires board.Fits(g)
      reads u0`position
    {
      ChainAreas(g, Chained(u0 - u)) <= e && ChainAreas(g, Chained(u0 - u)) !! u
    }

    /** A step that flags nothing has no chained blasts to fire. */
    lemma NothingFired(g: Grid, u0: set<Piece>, e: set<Piece>, u: set<Piece>)
      requires board.Fits(g) && u0 <= u
      ensures ChainFired(g, u0, e, u)
    {
      assert Chained(u0 - u) == {};
    }

    /** Two steps in a row, from the unflagged pieces `u0` through `u1` to `u2`, whose
        chained blasts have each gone off by their end, have together fired the blasts
        of every chaining piece flagged over both. */
    lemma ChainFiredStep(g: Grid, u0: set<Piece>, u1: set<Piece>, u2: set<Piece>, e1: set<Piece>, e2: set<Piece>)
      requires board.Fits(g) && u2 <= u1 <= u0 && e1 <= e2
      requires ChainFired(g, u0, e1, u1) && ChainFired(g, u1, e2, u2)
      ensures ChainFired(g, u0, e2, u2)
    {
      assert Chained(u0 - u2) == Chained(u0 - u1) + Chained(u1 - u2);
      ChainAreasUnion(g, Chained(u0 - u1), Chained(u1 - u2));
    }

    lemma ChainAreasUnion(g: Grid, a: set<Piece>, b: set<Piece>)
      requires board.Fits(g)
      ensures ChainAreas(g, a + b) == ChainAreas(g, a) + ChainAreas(g, b)
    {
    }

    /** Every piece inside the blast is exploding and matched. */
    ghost predicate Covered(s: set<Piece>)
      reads this`explosions, this`pieces, pieces`isMatch
    {
      s <= explosions && s !! Unmatched()
    }

    /** No piece in the blast would open a further blast. */
    ghost predicate Quiet(g: Grid, c: GridPosition, r: int, shape: BlastShape)
      requires board.Fits(g)
      reads this`pieces, pieces`isMatch
    {
      forall p :: p in Area(g, c, r, shape) && p in Unmatched() ==> !Chains(p)
    }

    /** The pieces of the blast in column x, in rows below y. */
    ghost function ColumnPart(g: Grid, c: GridPosition, r: int, shape: BlastShape, x: int, y: int): set<Piece>
      requires board.Fits(g)
    {
      set j | 0 <= j < board.height && j < y && board.IsValidPosition(x, j) && InBlast(c, r, shape, x, j) &&
              g[x][j] != null :: g[x][j] as Piece
    }

    /** The pieces of the blast in columns before x. */
    ghost function Swept(g: Grid, c: GridPosition, r: int, shape: BlastShape, x: int): set<Piece>
      requires board.Fits(g)
    {
      set i, j | 0 <= i < board.width && 0 <= j < board.height && i < x && InBlast(c, r, shape, i, j) &&
                 g[i][j] != null :: g[i][j] as Piece
    }

    /** Every piece in the blast. */
    ghost function Area(g: Grid, c: GridPosition, r: int, shape: BlastShape): set<Piece>
      requires board.Fits(g)
    {
      set i, j | 0 <= i < board.width && 0 <= j < board.height && InBlast(c, r, shape, i, j) &&
                 g[i][j] != null :: g[i][j] as Piece
    }

    lemma ColumnStep(g: Grid, c: GridPosition, r: int, shape: BlastShape, x: int, y: int)
      requires board.Fits(g)
      ensures ColumnPart(g, c, r, shape, x, y + 1) == ColumnPart(g, c, r, shape, x, y) + CellPart(g, c, r, shape, x, y)
    {
    }

    lemma SweptStep(g: Grid, c: GridPosition, r: int, shape: BlastShape, x: int)
      requires board.Fits(g)
      ensures Swept(g, c, r, shape, x + 1) == Swept(g, c, r, shape, x) + ColumnPart(g, c, r, shape, x, c.y + r + 1)
    {
    }

    lemma SweptAll(g: Grid, c: GridPosition, r: int, shape: BlastShape, x: int)
      requires board.Fits(g) && x > c.x + r
      ensures Swept(g, c, r, shape, x) == Area(g, c, r, shape)
    {
    }

    /** `MarkGemAsMatched`: a no-op on a matched piece; otherwise the flag flips first,
        and only then does a colour bomb (disc) or a chaining plain bomb (square) mark
        the area around its own position. */
    method MarkGemAsMatched(ghost g: Grid, p: Piece)
      requires board.Shows(g) && OnBoard(g) && p in pieces && ExplosionsMatched()
      modifies this`explosions, pieces`isMatch
      ensures p.isMatch && ExplosionsMatched()
      ensures old(explosions) <= explosions
      ensures Unmatched() <= old(Unmatched())
      ensures old(p.isMatch) ==> explosions == old(explosions) && Unmatched() == old(Unmatched())
      ensures !old(p.isMatch) && !Chains(p) ==>
                explosions == old(explosions) && Unmatched() == old(Unmatched()) - {p}
      ensures !old(p.isMatch) && Chains(p) ==> Covered(Area(g, p.position, p.BlastSize(), ShapeOf(p)))
      ensures explosions <= old(explosions) + ChainAreas(g, Chained(old(Unmatched()) - Unmatched()))
      ensures Covered(ChainAreas(g, Chained(old(Unmatched()) - Unmatched())))
      ensures old(Unmatched()) - Unmatched() <= {p} + explosions
      decreases Unmatched(), 0
    {
      if !p.isMatch {
        ghost var before := Unmatched();
        p.isMatch := true;
        ghost var after := Unmatched();
        assert after < before && before - after <= {p} by {
          assert p in before && p !in after;
        }
        if p.IsColorBomb() {
          MarkBlastArea(g, p.position, p.BlastSize(), Disc);
        } else if chainsPlainBombs && p.Kind() == Bomb {
          MarkBlastArea(g, p.position, p.BlastSize(), Square);
        }
        FlipChains(g, p, before, after, Unmatched(), old(explosions), explosions);
        FlipStep(before, after, Unmatched(), {p}, {p} + explosions);
      } else {
        NothingFired(g, Unmatched(), explosions, Unmatched());
      }
    }

    /** Flagging `p`, which took the unflagged pieces from `before` to `after`, then
        marking its blast when it chains, which took the explosions from `e0` to `e`
        and the unflagged pieces on to `u`: the explosions stay within the blasts of
        the chaining pieces flagged since `before`, and all those blasts have gone off. */
    lemma FlipChains(g: Grid, p: Piece, before: set<Piece>, after: set<Piece>, u: set<Piece>,
                     e0: set<Piece>, e: set<Piece>)
      requires board.Fits(g) && p in before && after == before - {p} && u <= after
      requires Chains(p) ==>
                 Area(g, p.position, p.BlastSize(), ShapeOf(p)) <= e &&
                 Area(g, p.position, p.BlastSize(), ShapeOf(p)) !! u &&
                 e <= e0 + Area(g, p.position, p.BlastSize(), ShapeOf(p)) + ChainAreas(g, Chained(after - u)) &&
                 ChainFired(g, after, e, u)
      requires !Chains(p) ==> e == e0 && u == after
      ensures e <= e0 + ChainAreas(g, Chained(before - u))
      ensures ChainFired(g, before, e, u)
    {
      if Chains(p) {
        assert Chained(before - u) == {p} + Chained(after - u);
        ChainAreasUnion(g, {p}, Chained(after - u));
        assert ChainAreas(g, {p}) == Area(g, p.position, p.BlastSize(), ShapeOf(p));
      } else {
        assert Chained(before - u) == {};
      }
    }

    /** `MarkBombArea` (square) and `MarkColorBombArea` (disc): every non-empty in-board
        cell of the blast is marked and added to `explosions`. When nothing in the blast
        chains further, exactly the blast's pieces are added and flagged. */
    method MarkBlastArea(ghost g: Grid, c: GridPosition, r: int, shape: BlastShape)
      requires board.Shows(g) && OnBoard(g) && ExplosionsMatched()
      modifies this`explosions, pieces`isMatch
      ensures Covered(Area(g, c, r, shape)) && ExplosionsMatched()
      ensures old(explosions) <= explosions
      ensures Unmatched() <= old(Unmatched())
      ensures old(Quiet(g, c, r, shape)) ==>
                explosions == old(explosions) + Area(g, c, r, shape) &&
                Unmatched() == old(Unmatched()) - Area(g, c, r, shape)
      ensures explosions <= old(explosions) + Area(g, c, r, shape) + ChainAreas(g, Chained(old(Unmatched()) - Unmatched()))
      ensures Covered(ChainAreas(g, Chained(old(Unmatched()) - Unmatched())))
      ensures old(Unmatched()) - Unmatched() <= explosions
      decreases Unmatched(), 5
    {
      ghost var quiet := Quiet(g, c, r, shape);
      NothingFired(g, Unmatched(), explosions, Unmatched());
      var x := c.x - r;
      while x <= c.x + r
        invariant c.x - r <= x
        invariant ExplosionsMatched()
        invariant old(explosions) <= explosions
        invariant Unmatched() <= old(Unmatched())
        invariant Covered(Swept(g, c, r, shape, x))
        invariant quiet ==> Quiet(g, c, r, shape)
        invariant quiet ==>
                    explosions == old(explosions) + Swept(g, c, r, shape, x) &&
                    Unmatched() == old(Unmatched()) - Swept(g, c, r, shape, x)
        invariant explosions <= old(explosions) + Swept(g, c, r, shape, x) + ChainAreas(g, Chained(old(Unmatched()) - Unmatched()))
        invariant Covered(ChainAreas(g, Chained(old(Unmatched()) - Unmatched())))
        invariant old(Unmatched()) - Unmatched() <= explosions
      {
        MarkBlastSweep(g, c, r, shape, x, old(explosions), old(Unmatched()), quiet);
        x := x + 1;
      }
      SweptAll(g, c, r, shape, x);
    }

    /** One pass of the outer loop of `MarkBlastArea`: column x of the blast is marked,
        and what the loop knows about the columns before x moves on by one column. `e0`,
        and `u0` are the explosions and the unflagged pieces when the blast began. */
    method MarkBlastSweep(ghost g: Grid, c: GridPosition, r: int, shape: BlastShape, x: int,
                          ghost e0: set<Piece>, ghost u0: set<Piece>, ghost quiet: bool)
      requires board.Shows(g) && OnBoard(g) && ExplosionsMatched() && c.x - r <= x <= c.x + r
      requires e0 <= explosions && Unmatched() <= u0
      requires Covered(Swept(g, c, r, shape, x))
      requires quiet ==> Quiet(g, c, r, shape)
      requires quiet ==> explosions == e0 + Swept(g, c, r, shape, x) && Unmatched() == u0 - Swept(g, c, r, shape, x)
      requires explosions <= e0 + Swept(g, c, r, shape, x) + ChainAreas(g, Chained(u0 - Unmatched()))
      requires Covered(ChainAreas(g, Chained(u0 - Unmatched())))
      requires u0 - Unmatched() <= explosions
      modifies this`explosions, pieces`isMatch
      ensures ExplosionsMatched()
      ensures e0 <= explosions && Unmatched() <= u0
      ensures Covered(Swept(g, c, r, shape, x + 1))
      ensures quiet ==> Quiet(g, c, r, shape)
      ensures quiet ==> explosions == e0 + Swept(g, c, r, shape, x + 1) && Unmatched() == u0 - Swept(g, c, r, shape, x + 1)
      ensures explosions <= e0 + Swept(g, c, r, shape, x + 1) + ChainAreas(g, Chained(u0 - Unmatched()))
      ensures Covered(ChainAreas(g, Chained(u0 - Unmatched())))
      ensures u0 - Unmatched() <= explosions
      decreases Unmatched(), 4
    {
      ghost var e, u := explosions, Unmatched();
      MarkBlastColumn(g, c, r, shape, x, e, u, quiet);
      SweptStep(g, c, r, shape, x);
      ChainStep(g, e0, e, explosions, Swept(g, c, r, shape, x), ColumnPart(g, c, r, shape, x, c.y + r + 1),
                u0, u, Unmatched());
      FlipStep(u0, u, Unmatched(), e, explosions);
      ChainFiredStep(g, u0, u, Unmatched(), e, explosions);
      assert quiet ==>
               explosions == e + ColumnPart(g, c, r, shape, x, c.y + r + 1) &&
               Unmatched() == u - ColumnPart(g, c, r, shape, x, c.y + r + 1);
    }

    /** One column of `MarkBlastArea`: the inner loop over rows. `e0` and `u0` are the
        explosions and the unflagged pieces before the column. */
    method MarkBlastColumn(ghost g: Grid, c: GridPosition, r: int, shape: BlastShape, x: int,
                           ghost e0: set<Piece>, ghost u0: set<Piece>, ghost quiet: bool)
      requires board.Shows(g) && OnBoard(g) && ExplosionsMatched()
      requires c.x - r <= x <= c.x + r
      requires e0 == explosions && u0 == Unmatched() && (quiet ==> Quiet(g, c, r, shape))
      modifies this`explosions, pieces`isMatch
      ensures ExplosionsMatched()
      ensures Covered(ColumnPart(g, c, r, shape, x, c.y + r + 1))
      ensures e0 <= explosions
      ensures Unmatched() <= u0
      ensures quiet ==>
                explosions == e0 + ColumnPart(g, c, r, shape, x, c.y + r + 1) &&
                Unmatched() == u0 - ColumnPart(g, c, r, shape, x, c.y + r + 1)
      ensures explosions <= e0 + ColumnPart(g, c, r, shape, x, c.y + r + 1) + ChainAreas(g, Chained(u0 - Unmatched()))
      ensures Covered(ChainAreas(g, Chained(u0 - Unmatched())))
      ensures u0 - Unmatched() <= explosions
      decreases Unmatched(), 3
    {
      MarkedFromStart(g, c, r, shape, x, e0, u0, quiet);
      for y := c.y - r to c.y + r + 1
        invariant MarkedBelow(g, c, r, shape, x, y, e0, u0, quiet)
      {
        MarkColumnStep(g, c, r, shape, x, y, e0, u0, quiet);
      }
    }

    /** What the inner loop of `MarkBlastArea` knows once the rows of column x below y
        are marked, starting from explosions `e0` and unflagged pieces `u0`: those
        pieces of the blast explode; only explosions were added and only pieces were
        flagged; if no piece of the blast chains, exactly those pieces were added and
        flagged; every other explosion lies in the blast of a chaining piece that was
        flagged, and those blasts have gone off; and every piece flagged explodes. */
    ghost predicate MarkedBelow(g: Grid, c: GridPosition, r: int, shape: BlastShape, x: int, y: int,
                                e0: set<Piece>, u0: set<Piece>, quiet: bool)
      requires board.Fits(g)
      reads this`explosions, this`pieces, pieces`isMatch, u0`position
    {
      ExplosionsMatched() &&
      e0 <= explosions && Unmatched() <= u0 &&
      Covered(ColumnPart(g, c, r, shape, x, y)) &&
      (quiet ==> Quiet(g, c, r, shape)) &&
      (quiet ==> explosions == e0 + ColumnPart(g, c, r, shape, x, y) && Unmatched() == u0 - ColumnPart(g, c, r, shape, x, y)) &&
      explosions <= e0 + ColumnPart(g, c, r, shape, x, y) + ChainAreas(g, Chained(u0 - Unmatched())) &&
      Covered(ChainAreas(g, Chained(u0 - Unmatched()))) &&
      u0 - Unmatched() <= explosions
    }

    /** Before the first row of a column nothing of it is marked yet. */
    lemma MarkedFromStart(g: Grid, c: GridPosition, r: int, shape: BlastShape, x: int,
                          e0: set<Piece>, u0: set<Piece>, quiet: bool)
      requires board.Fits(g) && ExplosionsMatched()
      requires e0 == explosions && u0 == Unmatched() && (quiet ==> Quiet(g, c, r, shape))
      ensures MarkedBelow(g, c, r, shape, x, c.y - r, e0, u0, quiet)
    {
      assert ColumnPart(g, c, r, shape, x, c.y - r) == {};
      NothingFired(g, u0, e0, u0);
    }

    /** One pass of the inner loop of `MarkBlastArea`: cell (x, y) is marked, and what
        the loop knows about the rows below y moves on by one row. */
    method MarkColumnStep(ghost g: Grid, c: GridPosition, r: int, shape: BlastShape, x: int, y: int,
                          ghost e0: set<Piece>, ghost u0: set<Piece>, ghost quiet: bool)
      requires board.Shows(g) && OnBoard(g)
      requires c.x - r <= x <= c.x + r && c.y - r <= y <= c.y + r
      requires MarkedBelow(g, c, r, shape, x, y, e0, u0, quiet)
      modifies this`explosions, pieces`isMatch
      ensures MarkedBelow(g, c, r, shape, x, y + 1, e0, u0, quiet)
      decreases Unmatched(), 2
    {
      ColumnStep(g, c, r, shape, x, y);
      ghost var e, u := explosions, Unmatched();
      MarkBlastCell(g, c, r, shape, x, y);
      ChainStep(g, e0, e, explosions, ColumnPart(g, c, r, shape, x, y), CellPart(g, c, r, shape, x, y),
                u0, u, Unmatched());
      FlipStep(u0, u, Unmatched(), e, explosions);
      ChainFiredStep(g, u0, u, Unmatched(), e, explosions);
    }

    /** The pieces in cell (x, y) when it lies on the board and in the blast. */
    ghost function CellPart(g: Grid, c: GridPosition, r: int, shape: BlastShape, x: int, y: int): set<Piece>
      requires board.Fits(g)
    {
      if board.IsValidPosition(x, y) && InBlast(c, r, shape, x, y) && g[x][y] != null
      then {g[x][y] as Piece} else {}
    }

    /** One cell of the blast: the body of the inner loop. */
    method MarkBlastCell(ghost g: Grid, c: GridPosition, r: int, shape: BlastShape, x: int, y: int)
      requires board.Shows(g) && OnBoard(g) && ExplosionsMatched()
      requires c.x - r <= x <= c.x + r && c.y - r <= y <= c.y + r
      modifies this`explosions, pieces`isMatch
      ensures ExplosionsMatched()
      ensures Covered(CellPart(g, c, r, shape, x, y))
      ensures old(explosions) <= explosions
      ensures Unmatched() <= old(Unmatched())
      ensures old(Quiet(g, c, r, shape)) ==>
                explosions == old(explosions) + CellPart(g, c, r, shape, x, y) &&
                Unmatched() == old(Unmatched()) - CellPart(g, c, r, shape, x, y)
      ensures explosions <= old(explosions) + CellPart(g, c, r, shape, x, y) + ChainAreas(g, Chained(old(Unmatched()) - Unmatched()))
      ensures Covered(ChainAreas(g, Chained(old(Unmatched()) - Unmatched())))
      ensures old(Unmatched()) - Unmatched() <= explosions
      decreases Unmatched(), 1
    {
      NothingFired(g, Unmatched(), explosions, Unmatched());
      if 0 <= x < board.width && 0 <= y < board.height {
        var gem := board.GetGem(x, y);
        if gem != null && (shape == Square || SqDist(x - c.x, y - c.y) <= r * r) {
          assert gem in pieces;
          assert gem in Area(g, c, r, shape);
          assert CellPart(g, c, r, shape, x, y) == {gem};
          MarkGemAsMatched(g, gem);
          ghost var u, chain := Unmatched(), ChainAreas(g, Chained(old(Unmatched()) - Unmatched()));
          assert explosions <= old(explosions) + chain;
          explosions := explosions + {gem};
          assert Unmatched() == u;
          assert explosions <= old(explosions) + {gem} + chain;
        }
      }
    }
  
    /** No unmatched piece of `s` would open a blast. */
    ghost predicate QuietSet(s: set<Piece>)
      reads this`pieces, pieces`isMatch
    {
      forall p :: p in s && p in Unmatched() ==> !Chains(p)
    }

    /** The `foreach ... MarkGemAsMatched` loop at the top of `AddMatch`. */
    method MarkAllAsMatched(ghost g: Grid, s: set<Piece>)
      requires board.Shows(g) && OnBoard(g) && ExplosionsMatched() && s <= pieces
      modifies this`explosions, pieces`isMatch
      ensures ExplosionsMatched() && s !! Unmatched()
      ensures old(QuietSet(s)) ==> explosions == old(explosions) && Unmatched() == old(Unmatched()) - s
      ensures FlagBounded(g, old(explosions), old(Unmatched()), explosions, Unmatched(), s)
      ensures Covered(ChainAreas(g, Chained(old(Unmatched()) - Unmatched())))
    {
      ghost var quiet := QuietSet(s);
      NothingFired(g, Unmatched(), explosions, Unmatched());
      var rest := s;
      while rest != {}
        invariant rest <= s
        invariant ExplosionsMatched() && (s - rest) !! Unmatched()
        invariant old(explosions) <= explosions && Unmatched() <= old(Unmatched())
        invariant quiet ==> QuietSet(s)
        invariant quiet ==> explosions == old(explosions) && Unmatched() == old(Unmatched()) - (s - rest)
        invariant explosions <= old(explosions) + ChainAreas(g, Chained(old(Unmatched()) - Unmatched()))
        invariant old(Unmatched()) - Unmatched() <= (s - rest) + explosions
        invariant ChainFired(g, old(Unmatched()), explosions, Unmatched())
        decreases rest
      {
        var p :| p in rest;
        MarkOneOf(g, s, rest, p, old(explosions), old(Unmatched()), quiet);
        rest := rest - {p};
      }
    }

    /** One pass of the loop of `MarkAllAsMatched`: `p`, one of the pieces still to
        mark, is marked. `e0` and `u0` are the explosions and the unflagged pieces when
        the loop began. */
    method MarkOneOf(ghost g: Grid, ghost s: set<Piece>, ghost rest: set<Piece>, p: Piece,
                     ghost e0: set<Piece>, ghost u0: set<Piece>, ghost quiet: bool)
      requires board.Shows(g) && OnBoard(g) && s <= pieces && p in rest && rest <= s
      requires ExplosionsMatched() && (s - rest) !! Unmatched()
      requires e0 <= explosions && Unmatched() <= u0
      requires quiet ==> QuietSet(s)
      requires quiet ==> explosions == e0 && Unmatched() == u0 - (s - rest)
      requires explosions <= e0 + ChainAreas(g, Chained(u0 - Unmatched()))
      requires u0 - Unmatched() <= (s - rest) + explosions
      requires ChainFired(g, u0, explosions, Unmatched())
      modifies this`explosions, pieces`isMatch
      ensures ExplosionsMatched() && (s - (rest - {p})) !! Unmatched()
      ensures e0 <= explosions && Unmatched() <= u0
      ensures quiet ==> QuietSet(s)
      ensures quiet ==> explosions == e0 && Unmatched() == u0 - (s - (rest - {p}))
      ensures explosions <= e0 + ChainAreas(g, Chained(u0 - Unmatched()))
      ensures u0 - Unmatched() <= (s - (rest - {p})) + explosions
      ensures ChainFired(g, u0, explosions, Unmatched())
    {
      ghost var e, u := explosions, Unmatched();
      MarkGemAsMatched(g, p);
      assert s - (rest - {p}) == (s - rest) + {p};
      ChainStep(g, e0, e, explosions, {}, {}, u0, u, Unmatched());
      FlipStep(u0, u, Unmatched(), (s - rest) + e, (s - (rest - {p})) + explosions);
      ChainFiredStep(g, u0, u, Unmatched(), e, explosions);
    }

    /** The state every scan step keeps: clusters of three or more board pieces of one
        type, all flagged, each anchored as `rule` allows. */
    ghost predicate ClustersOk(rule: AnchorRule)
      reads this`matches, this`pieces, pieces`isMatch, pieces`position
    {
      ClustersShaped(rule) && ClustersFlagged()
    }

    /** The part of `ClustersOk` that flagging pieces cannot disturb. */
    ghost predicate ClustersShaped(rule: AnchorRule)
      reads this`matches, this`pieces, pieces`position
    {
      AllLarge(matches) && AllUniform(matches) &&
      (forall k :: 0 <= k < |matches| ==> matches[k].gems <= pieces) &&
      (forall k :: 0 <= k < |matches| ==> AnchorFits(rule, matches[k]))
    }

    /** Every clustered piece is flagged. */
    ghost predicate ClustersFlagged()
      reads this`matches, this`pieces, pieces`isMatch
    {
      forall k :: 0 <= k < |matches| ==> matches[k].gems !! Unmatched()
    }

    /** Every cluster lies inside `s`. */
    ghost predicate Within(s: set<Piece>)
      reads this`matches
    {
      forall k :: 0 <= k < |matches| ==> matches[k].gems <= s
    }

    /** A bound on the clusters may always be widened. */
    lemma WithinGrows(s: set<Piece>, t: set<Piece>)
      requires Within(s) && s <= t
      ensures Within(t)
    {
    }

    /** The merge loop of `AddMatch`: union into the first overlapping cluster, else
        append. */
    method MergeIntoClusters(m: MatchInfo)
      modifies this`matches
      ensures matches == Merge(old(matches), m)
    {
      ghost var before := matches;
      var i := 0;
      while i < |matches|
        invariant 0 <= i <= |matches| && matches == before
        invariant FirstOverlap(matches, m.gems, 0) == FirstOverlap(matches, m.gems, i)
      {
        if Overlaps(matches[i].gems, m.gems) {
          matches := matches[i := MatchInfo(matches[i].gems + m.gems, matches[i].anchor.OrElse(m.anchor))];
          return;
        }
        i := i + 1;
      }
      matches := matches + [m];
    }

    /** What a merge keeps, gathered for the two exits of the merge loop. */
    lemma MergeFacts(ms: seq<MatchInfo>, m: MatchInfo, rule: AnchorRule, u: set<Piece>)
      requires forall k :: 0 <= k < |ms| ==> AnchorFits(rule, ms[k])
      requires AnchorFits(rule, m)
      requires AllLarge(ms) && |m.gems| >= 3 && AllUniform(ms) && Uniform(m.gems)
      requires (forall k :: 0 <= k < |ms| ==> ms[k].gems <= pieces) && m.gems <= pieces
      requires (forall k :: 0 <= k < |ms| ==> ms[k].gems !! u) && m.gems !! u
      ensures forall k :: 0 <= k < |Merge(ms, m)| ==> AnchorFits(rule, Merge(ms, m)[k])
      ensures AllLarge(Merge(ms, m)) && AllUniform(Merge(ms, m))
      ensures forall k :: 0 <= k < |Merge(ms, m)| ==> Merge(ms, m)[k].gems <= pieces
      ensures forall k :: 0 <= k < |Merge(ms, m)| ==> Merge(ms, m)[k].gems !! u
      ensures Absorbed(Merge(ms, m), m.gems) && Grows(ms, Merge(ms, m))
    {
      MergeKeepsShape(ms, m);
      MergeKeepsWithin(ms, m, pieces);
      MergeKeepsApart(ms, m, u);
      MergeKeepsFit(ms, m, rule);
      MergeAbsorbs(ms, m);
    }

    /** `AddMatch`: flag every piece of the new set, then merge it into the list.
        `e0` and `u0` are the explosions and the unflagged pieces before the call. */
    method AddMatch(ghost g: Grid, m: MatchInfo, ghost rule: AnchorRule, ghost e0: set<Piece>, ghost u0: set<Piece>)
      requires board.Shows(g) && OnBoard(g) && ExplosionsMatched() && ClustersOk(rule)
      requires |m.gems| >= 3 && Uniform(m.gems) && m.gems <= pieces && AnchorFits(rule, m)
      requires e0 == explosions && u0 == Unmatched()
      modifies this`explosions, this`matches, pieces`isMatch
      ensures matches == Merge(old(matches), m)
      ensures ClustersOk(rule) && ExplosionsMatched()
      ensures Absorbed(matches, m.gems)
      ensures Grows(old(matches), matches)
      ensures old(QuietSet(m.gems)) ==> explosions == e0 && Unmatched() == u0 - m.gems
      ensures FlagBounded(g, e0, u0, explosions, Unmatched(), m.gems)
      ensures Covered(ChainAreas(g, Chained(u0 - Unmatched())))
      ensures Members(matches) == Members(old(matches)) + m.gems
    {
      ghost var quiet := QuietSet(m.gems);
      MarkAllAsMatched(g, m.gems);
      ClustersStayMatched(u0);
      MergeFlagged(g, m, rule, e0, u0, quiet);
    }

    /** The merge half of `AddMatch`, once every piece of the new set is flagged. What
        the flagging did, from explosions `e0` and unflagged pieces `u0`, still holds
        after it. */
    method MergeFlagged(ghost g: Grid, m: MatchInfo, ghost rule: AnchorRule,
                        ghost e0: set<Piece>, ghost u0: set<Piece>, ghost quiet: bool)
      requires board.Fits(g)
      requires ClustersOk(rule) && |m.gems| >= 3 && Uniform(m.gems) && m.gems <= pieces && AnchorFits(rule, m)
      requires m.gems !! Unmatched()
      requires quiet ==> explosions == e0 && Unmatched() == u0 - m.gems
      requires FlagBounded(g, e0, u0, explosions, Unmatched(), m.gems)
      modifies this`matches
      ensures matches == Merge(old(matches), m)
      ensures ClustersOk(rule) && Absorbed(matches, m.gems) && Grows(old(matches), matches)
      ensures Members(matches) == Members(old(matches)) + m.gems
      ensures quiet ==> explosions == e0 && Unmatched() == u0 - m.gems
      ensures FlagBounded(g, e0, u0, explosions, Unmatched(), m.gems)
    {
      ghost var before, u := matches, Unmatched();
      MergeIntoClusters(m);
      assert Unmatched() == u;
      MergeFacts(before, m, rule, u);
      MergeMembers(before, m);
    }

    /** `CheckMatchesInDirection`: the piece at (x, y) together with its same-type runs
        both ways along the axis, kept only with three or more pieces. */
    method CheckMatchesInDirection(ghost g: Grid, x: int, y: int, dx: int, dy: int) returns (r: Option<set<Piece>>)
      requires board.Shows(g) && OnBoard(g) && board.IsValidPosition(x, y) && IsStep(dx, dy)
      ensures r == if QualifyingRun(g, x, y, dx, dy) == {} then None else Some(QualifyingRun(g, x, y, dx, dy))
      ensures r.Some? ==> g[x][y] in r.value && |r.value| >= 3 && Uniform(r.value) && r.value <= pieces
    {
      QualifyingRunShape(g, x, y, dx, dy);
      var cell := board.GetGem(x, y);
      if cell == null {
        return None;
      }
      var found := CollectAxis(g, x, y, dx, dy);
      if |found| < 3 {
        return None;
      }
      return Some(found);
    }

    /** The set `CheckMatchesInDirection` fills for an occupied cell: the piece, then
        the run forwards, then the run backwards. */
    method CollectAxis(ghost g: Grid, x: int, y: int, dx: int, dy: int) returns (found: set<Piece>)
      requires board.Shows(g) && board.IsValidPosition(x, y) && IsStep(dx, dy) && g[x][y] != null
      ensures found == board.AxisRun(g, x, y, dx, dy)
    {
      var gem: Piece := board.GetGem(x, y);
      var forward := board.GetMatchingGemsInDirection(g, GridPosition(x, y), dx, dy, gem.Kind());
      var backward := board.GetMatchingGemsInDirection(g, GridPosition(x, y), -dx, -dy, gem.Kind());
      found := {gem} + Elements(forward) + Elements(backward);
    }

    /** The run through (x, y) along one axis when it has three or more pieces, else nothing. */
    ghost function QualifyingRun(g: Grid, x: int, y: int, dx: int, dy: int): set<Piece>
      requires board.Fits(g) && IsStep(dx, dy)
    {
      if board.IsValidPosition(x, y) && g[x][y] != null && |board.AxisRun(g, x, y, dx, dy)| >= 3
      then board.AxisRun(g, x, y, dx, dy) else {}
    }

    /** A qualifying run holds three or more pieces of the kind of the cell it was found
        from, all on the board. */
    lemma QualifyingRunShape(g: Grid, x: int, y: int, dx: int, dy: int)
      requires board.Fits(g) && OnBoard(g) && IsStep(dx, dy)
      ensures QualifyingRun(g, x, y, dx, dy) != {} ==>
                board.IsValidPosition(x, y) && g[x][y] != null &&
                g[x][y] in QualifyingRun(g, x, y, dx, dy) &&
                |QualifyingRun(g, x, y, dx, dy)| >= 3 && Uniform(QualifyingRun(g, x, y, dx, dy)) &&
                QualifyingRun(g, x, y, dx, dy) <= pieces
    {
      if QualifyingRun(g, x, y, dx, dy) != {} {
        board.AxisRunOnBoard(g, x, y, dx, dy);
        AllOnBoard(g);
      }
    }

    /** `s` together with the qualifying runs found from the cells of column x below
        row y, horizontal run before vertical run. */
    ghost function ColumnRuns(g: Grid, s: set<Piece>, x: int, y: int): set<Piece>
      requires board.Fits(g)
      decreases y
    {
      if y <= 0 then s else ColumnRuns(g, s, x, y - 1) + QualifyingRun(g, x, y - 1, 1, 0) + QualifyingRun(g, x, y - 1, 0, 1)
    }

    /** The qualifying runs found from the columns before x; with x = width, every piece
        of every run of three or more on the board. */
    ghost function RunPieces(g: Grid, x: int): set<Piece>
      requires board.Fits(g)
      decreases x
    {
      if x <= 0 then {} else ColumnRuns(g, RunPieces(g, x - 1), x - 1, board.height)
    }

    /** The cluster list after scanning cell (x, y) from `ms`: its horizontal run is
        merged in, then its vertical run. */
    ghost function CellMerges(g: Grid, ms: seq<MatchInfo>, x: int, y: int): seq<MatchInfo>
      requires board.Fits(g)
    {
      WithRun(WithRun(ms, QualifyingRun(g, x, y, 1, 0)), QualifyingRun(g, x, y, 0, 1))
    }

    /** The cluster list after scanning the cells of column x below row y from `ms`,
        bottom to top. */
    ghost function ColumnMerges(g: Grid, ms: seq<MatchInfo>, x: int, y: int): seq<MatchInfo>
      requires board.Fits(g)
      decreases y
    {
      if y <= 0 then ms else CellMerges(g, ColumnMerges(g, ms, x, y - 1), x, y - 1)
    }

    /** The cluster list after scanning the columns before x from an empty list, left to
        right; with x = width, the list one whole scan builds. */
    ghost function BoardMerges(g: Grid, x: int): seq<MatchInfo>
      requires board.Fits(g)
      decreases x
    {
      if x <= 0 then [] else ColumnMerges(g, BoardMerges(g, x - 1), x - 1, board.height)
    }

    /** Scanning one cell only looks at the cluster sets, never at the anchors. */
    lemma CellMergesSameSets(g: Grid, ms: seq<MatchInfo>, ns: seq<MatchInfo>, x: int, y: int)
      requires board.Fits(g) && GemSets(ms) == GemSets(ns)
      ensures GemSets(CellMerges(g, ms, x, y)) == GemSets(CellMerges(g, ns, x, y))
    {
      WithRunSameSets(ms, ns, QualifyingRun(g, x, y, 1, 0));
      WithRunSameSets(WithRun(ms, QualifyingRun(g, x, y, 1, 0)), WithRun(ns, QualifyingRun(g, x, y, 1, 0)), QualifyingRun(g, x, y, 0, 1));
    }

    /** The same for the cells of column x below row y. */
    lemma {:induction false} ColumnMergesSameSets(g: Grid, ms: seq<MatchInfo>, ns: seq<MatchInfo>, x: int, y: int)
      requires board.Fits(g) && GemSets(ms) == GemSets(ns)
      ensures GemSets(ColumnMerges(g, ms, x, y)) == GemSets(ColumnMerges(g, ns, x, y))
      decreases y
    {
      if y > 0 {
        var a, b := ColumnMerges(g, ms, x, y - 1), ColumnMerges(g, ns, x, y - 1);
        ColumnMergesSameSets(g, ms, ns, x, y - 1);
        CellMergesSameSets(g, a, b, x, y - 1);
        assert ColumnMerges(g, ms, x, y) == CellMerges(g, a, x, y - 1);
        assert ColumnMerges(g, ns, x, y) == CellMerges(g, b, x, y - 1);
      }
    }

    /** An empty set or one lying inside one cluster. */
    ghost predicate RunAbsorbed(ms: seq<MatchInfo>, s: set<Piece>) {
      s == {} || Absorbed(ms, s)
    }

    ghost predicate CellAbsorbed(g: Grid, ms: seq<MatchInfo>, x: int, y: int)
      requires board.Fits(g)
    {
      RunAbsorbed(ms, QualifyingRun(g, x, y, 1, 0)) && RunAbsorbed(ms, QualifyingRun(g, x, y, 0, 1))
    }

    /** The runs found from the cells of column x below row y each lie in one cluster. */
    ghost predicate ColumnAbsorbed(g: Grid, ms: seq<MatchInfo>, x: int, y: int)
      requires board.Fits(g)
      decreases y
    {
      y <= 0 || (ColumnAbsorbed(g, ms, x, y - 1) && CellAbsorbed(g, ms, x, y - 1))
    }

    /** The runs found from the columns before x each lie in one cluster. */
    ghost predicate BoardAbsorbed(g: Grid, ms: seq<MatchInfo>, x: int)
      requires board.Fits(g)
      decreases x
    {
      x <= 0 || (BoardAbsorbed(g, ms, x - 1) && ColumnAbsorbed(g, ms, x - 1, board.height))
    }

    /** A cell's runs stay absorbed as the cluster list grows. */
    lemma CellStaysAbsorbed(g: Grid, a: seq<MatchInfo>, b: seq<MatchInfo>, x: int, y: int)
      requires board.Fits(g) && Grows(a, b) && CellAbsorbed(g, a, x, y)
      ensures CellAbsorbed(g, b, x, y)
    {
      if QualifyingRun(g, x, y, 1, 0) != {} {
        GrowsKeepsAbsorbed(a, b, QualifyingRun(g, x, y, 1, 0));
      }
      if QualifyingRun(g, x, y, 0, 1) != {} {
        GrowsKeepsAbsorbed(a, b, QualifyingRun(g, x, y, 0, 1));
      }
    }

    lemma {:induction false} ColumnStaysAbsorbed(g: Grid, a: seq<MatchInfo>, b: seq<MatchInfo>, x: int, y: int)
      requires board.Fits(g) && Grows(a, b) && ColumnAbsorbed(g, a, x, y)
      ensures ColumnAbsorbed(g, b, x, y)
      decreases y
    {
      if y > 0 {
        assert ColumnAbsorbed(g, a, x, y - 1) && CellAbsorbed(g, a, x, y - 1);
        ColumnStaysAbsorbed(g, a, b, x, y - 1);
        CellStaysAbsorbed(g, a, b, x, y - 1);
      }
    }

    /** Scanning one more cell of the column extends the absorbed prefix by one. */
    lemma ColumnAbsorbedStep(g: Grid, a: seq<MatchInfo>, b: seq<MatchInfo>, x: int, y: int)
      requires board.Fits(g) && Grows(a, b) && ColumnAbsorbed(g, a, x, y) && CellAbsorbed(g, b, x, y)
      ensures ColumnAbsorbed(g, b, x, y + 1)
    {
      ColumnStaysAbsorbed(g, a, b, x, y);
    }

    lemma {:induction false} BoardStaysAbsorbed(g: Grid, a: seq<MatchInfo>, b: seq<MatchInfo>, x: int)
      requires board.Fits(g) && Grows(a, b) && BoardAbsorbed(g, a, x)
      ensures BoardAbsorbed(g, b, x)
      decreases x
    {
      if x > 0 {
        BoardStaysAbsorbed(g, a, b, x - 1);
        ColumnStaysAbsorbed(g, a, b, x - 1, board.height);
      }
    }

    /** A cell of column x below row y has its runs absorbed once the column is. */
    lemma {:induction false} ColumnCellAbsorbed(g: Grid, ms: seq<MatchInfo>, x: int, y: int, j: int)
      requires board.Fits(g) && ColumnAbsorbed(g, ms, x, y) && 0 <= j < y
      ensures CellAbsorbed(g, ms, x, j)
      decreases y
    {
      if j == y - 1 {
        assert CellAbsorbed(g, ms, x, y - 1);
      } else {
        assert ColumnAbsorbed(g, ms, x, y - 1);
        ColumnCellAbsorbed(g, ms, x, y - 1, j);
      }
    }

    /** A column before x is absorbed once the board is up to x. */
    lemma {:induction false} BoardColumnAbsorbed(g: Grid, ms: seq<MatchInfo>, x: int, i: int)
      requires board.Fits(g) && BoardAbsorbed(g, ms, x) && 0 <= i < x
      ensures ColumnAbsorbed(g, ms, i, board.height)
      decreases x
    {
      if i < x - 1 {
        assert BoardAbsorbed(g, ms, x - 1);
        BoardColumnAbsorbed(g, ms, x - 1, i);
      }
    }

    /** Once every column is absorbed, every cell's runs lie in one cluster. */
    lemma BoardAbsorbedCells(g: Grid, ms: seq<MatchInfo>, x: int)
      requires board.Fits(g) && BoardAbsorbed(g, ms, x)
      ensures forall i, j :: 0 <= i < x && 0 <= j < board.height ==> CellAbsorbed(g, ms, i, j)
    {
      forall i, j | 0 <= i < x && 0 <= j < board.height ensures CellAbsorbed(g, ms, i, j) {
        BoardColumnAbsorbed(g, ms, x, i);
        ColumnCellAbsorbed(g, ms, i, board.height, j);
      }
    }

    /** The loop body of `FindAllMatches` for one cell: both axes are checked, then
        each qualifying run is added. `s` bounds the clusters found so far. */
    method ScanCell(ghost g: Grid, x: int, y: int, rule: AnchorRule, ghost s: set<Piece>,
                    ghost before: seq<MatchInfo>, ghost e: set<Piece>, ghost u: set<Piece>)
      requires board.Shows(g) && OnBoard(g) && board.IsValidPosition(x, y)
      requires ExplosionsMatched() && ClustersOk(rule) && Within(s)
      requires before == matches && e == explosions && u == Unmatched()
      modifies this`explosions, this`matches, pieces`isMatch
      ensures ExplosionsMatched() && ClustersOk(rule)
      ensures Within(s + QualifyingRun(g, x, y, 1, 0) + QualifyingRun(g, x, y, 0, 1))
      ensures CellProgress(g, x, y, before, e, u, matches, explosions, Unmatched())
    {
      if board.GetGem(x, y) != null {
        var horizontal := CheckMatchesInDirection(g, x, y, 1, 0);
        var vertical := CheckMatchesInDirection(g, x, y, 0, 1);
        AddRuns(g, horizontal, vertical, rule, QualifyingRun(g, x, y, 1, 0), QualifyingRun(g, x, y, 0, 1), s);
        assert CellMerges(g, before, x, y) == WithRun(WithRun(before, QualifyingRun(g, x, y, 1, 0)), QualifyingRun(g, x, y, 0, 1));
      } else {
        WithinGrows(s, s + QualifyingRun(g, x, y, 1, 0) + QualifyingRun(g, x, y, 0, 1));
        assert CellMerges(g, before, x, y) == before;
      }
    }

    /** The two `AddMatch` calls for one cell, the horizontal run first: `h` and `v`
        are the qualifying runs the two checks reported. */
    method AddRuns(ghost g: Grid, horizontal: Option<set<Piece>>, vertical: Option<set<Piece>>, rule: AnchorRule,
                   ghost h: set<Piece>, ghost v: set<Piece>, ghost s: set<Piece>)
      requires board.Shows(g) && OnBoard(g)
      requires horizontal == if h == {} then None else Some(h)
      requires vertical == if v == {} then None else Some(v)
      requires h != {} ==> |h| >= 3 && Uniform(h) && h <= pieces
      requires v != {} ==> |v| >= 3 && Uniform(v) && v <= pieces
      requires ExplosionsMatched() && ClustersOk(rule) && Within(s)
      modifies this`explosions, this`matches, pieces`isMatch
      ensures ExplosionsMatched() && ClustersOk(rule)
      ensures Within(s + h + v)
      ensures RunAbsorbed(matches, h) && RunAbsorbed(matches, v)
      ensures Grows(old(matches), matches)
      ensures GemSets(matches) == GemSets(WithRun(WithRun(old(matches), h), v))
      ensures ScanBounded(g, old(explosions), old(Unmatched()), old(Members(matches)), explosions, Unmatched(), Members(matches))
    {
      AddRun(g, horizontal, rule, h, s);
      ghost var between, e1, u1, m1 := matches, explosions, Unmatched(), Members(matches);
      AddRun(g, vertical, rule, v, s + h);
      ScanBoundedStep(g, old(explosions), old(Unmatched()), old(Members(matches)), e1, u1, m1,
                      explosions, Unmatched(), Members(matches));
      GrowsTransitive(old(matches), between, matches);
      WithRunSameSets(between, WithRun(old(matches), h), v);
      if h != {} {
        GrowsKeepsAbsorbed(between, matches, h);
      }
    }

    /** What a part of the scan did between a state with explosions `e0`, unflagged
        pieces `u0` and cluster members `m0` and a state with `e1`, `u1` and `m1`: it
        only added explosions and members and only flagged pieces; every explosion it
        added lies in the blast of a chaining piece it flagged, and the blast of every
        chaining piece it flagged has gone off; and every piece it flagged now sits in
        a cluster or explodes. */
    ghost predicate ScanBounded(g: Grid, e0: set<Piece>, u0: set<Piece>, m0: set<Piece>,
                                e1: set<Piece>, u1: set<Piece>, m1: set<Piece>)
      requires board.Fits(g)
      reads u0`position
    {
      e0 <= e1 && u1 <= u0 && m0 <= m1 &&
      e1 <= e0 + ChainAreas(g, Chained(u0 - u1)) && ChainFired(g, u0, e1, u1) &&
      u0 - u1 <= m1 + e1
    }

    /** What flagging the pieces of `s` did between explosions `e0` and unflagged
        pieces `u0` and a state with `e1` and `u1`: it only added explosions and only
        flagged pieces; every explosion it added lies in the blast of a chaining piece
        it flagged, and the blast of every chaining piece it flagged has gone off; and
        every piece it flagged is one of `s` or explodes. */
    ghost predicate FlagBounded(g: Grid, e0: set<Piece>, u0: set<Piece>, e1: set<Piece>, u1: set<Piece>, s: set<Piece>)
      requires board.Fits(g)
      reads u0`position
    {
      e0 <= e1 && u1 <= u0 &&
      e1 <= e0 + ChainAreas(g, Chained(u0 - u1)) && ChainFired(g, u0, e1, u1) &&
      u0 - u1 <= s + e1
    }

    /** A match added to the scan is bounded like a part of it: the members grow by
        its pieces, and every piece flagged is one of them or an explosion. */
    lemma ScanBoundedOfMatch(g: Grid, e0: set<Piece>, u0: set<Piece>, m0: set<Piece>,
                             e1: set<Piece>, u1: set<Piece>, m1: set<Piece>, gems: set<Piece>)
      requires board.Fits(g)
      requires FlagBounded(g, e0, u0, e1, u1, gems) && m1 == m0 + gems
      ensures ScanBounded(g, e0, u0, m0, e1, u1, m1)
    {
    }

    /** Two parts of the scan in a row are bounded like one. */
    lemma ScanBoundedStep(g: Grid, e0: set<Piece>, u0: set<Piece>, m0: set<Piece>,
                          e1: set<Piece>, u1: set<Piece>, m1: set<Piece>,
                          e2: set<Piece>, u2: set<Piece>, m2: set<Piece>)
      requires board.Fits(g)
      requires ScanBounded(g, e0, u0, m0, e1, u1, m1) && ScanBounded(g, e1, u1, m1, e2, u2, m2)
      ensures ScanBounded(g, e0, u0, m0, e2, u2, m2)
    {
      ChainStep(g, e0, e1, e2, {}, {}, u0, u1, u2);
      FlipStep(u0, u1, u2, m1 + e1, m2 + e2);
      ChainFiredStep(g, u0, u1, u2, e1, e2);
    }

    /** `if (matches != null) AddMatch(new MatchInfo { ... })` for one axis: `run` is
        the qualifying run `found` reports, empty when there is none. */
    method AddRun(ghost g: Grid, found: Option<set<Piece>>, rule: AnchorRule, ghost run: set<Piece>, ghost s: set<Piece>)
      requires board.Shows(g) && OnBoard(g)
      requires found == if run == {} then None else Some(run)
      requires run != {} ==> |run| >= 3 && Uniform(run) && run <= pieces
      requires ExplosionsMatched() && ClustersOk(rule) && Within(s)
      modifies this`explosions, this`matches, pieces`isMatch
      ensures ExplosionsMatched() && ClustersOk(rule)
      ensures Within(s + run)
      ensures RunAbsorbed(matches, run)
      ensures Grows(old(matches), matches)
      ensures GemSets(matches) == GemSets(WithRun(old(matches), run))
      ensures ScanBounded(g, old(explosions), old(Unmatched()), old(Members(matches)), explosions, Unmatched(), Members(matches))
    {
      if found.Some? {
        var anchor := AnchorFor(found.value, rule);
        ghost var before, e0, u0, m0 := matches, explosions, Unmatched(), Members(matches);
        AddMatch(g, MatchInfo(found.value, anchor), rule, e0, u0);
        ScanBoundedOfMatch(g, e0, u0, m0, explosions, Unmatched(), Members(matches), found.value);
        MergeKeepsWithin(before, MatchInfo(found.value, anchor), s + found.value);
        MergeSameSets(before, before, MatchInfo(found.value, anchor), MatchInfo(run, None));
      } else {
        WithinGrows(s, s + run);
      }
    }

    /** The anchor handed to a new run: the shared position, or the swap cell one of
        its pieces stands on. */
    method AnchorFor(gems: set<Piece>, rule: AnchorRule) returns (anchor: Option<GridPosition>)
      ensures AnchorFits(rule, MatchInfo(gems, anchor))
    {
      match rule {
        case Shared(a) =>
          anchor := a;
        case FromSwap(a, b) =>
          anchor := GetUserActionPosForMatch(gems, a, b);
      }
    }

    /** The inner `for y` loop of `FindAllMatches`. */
    method ScanColumn(ghost g: Grid, x: int, rule: AnchorRule, ghost s: set<Piece>)
      requires board.Shows(g) && OnBoard(g) && 0 <= x < board.width
      requires ExplosionsMatched() && ClustersOk(rule) && Within(s)
      modifies this`explosions, this`matches, pieces`isMatch
      ensures ExplosionsMatched() && ClustersOk(rule)
      ensures Within(ColumnRuns(g, s, x, board.height))
      ensures ColumnAbsorbed(g, matches, x, board.height)
      ensures Grows(old(matches), matches)
      ensures GemSets(matches) == GemSets(ColumnMerges(g, old(matches), x, board.height))
      ensures ScanBounded(g, old(explosions), old(Unmatched()), old(Members(matches)), explosions, Unmatched(), Members(matches))
    {
      ghost var m0, e0, u0 := matches, explosions, Unmatched();
      for y := 0 to board.height
        invariant ColumnScanned(g, rule, s, x, y, m0, e0, u0)
      {
        ScanNextCell(g, x, y, rule, s, m0, e0, u0);
      }
    }

    /** The invariant of the inner loop once the cells of column x below row y are
        scanned, from the clusters `m0`, explosions `e0` and unflagged pieces `u0` the
        column began with: the clusters stay well formed, lie within the runs found so
        far, absorb every run found so far, and are those the scan-order merges give;
        and the scan so far is bounded. */
    ghost predicate ColumnScanned(g: Grid, rule: AnchorRule, s: set<Piece>, x: int, y: int,
                                  m0: seq<MatchInfo>, e0: set<Piece>, u0: set<Piece>)
      requires board.Fits(g)
      reads this`explosions, this`matches, this`pieces, pieces`isMatch, pieces`position, u0`position
    {
      ExplosionsMatched() && ClustersOk(rule) && Within(ColumnRuns(g, s, x, y)) &&
      ColumnProgress(g, x, y, m0, e0, u0, matches, explosions, Unmatched())
    }

    /** The clusters `ms`, explosions `e` and unflagged pieces `u` once the cells of
        column x below row y are scanned from `m0`, `e0` and `u0`: every run found so
        far lies in one cluster, the clusters are those the scan-order merges give,
        and the scan so far is bounded. */
    ghost predicate ColumnProgress(g: Grid, x: int, y: int, m0: seq<MatchInfo>, e0: set<Piece>, u0: set<Piece>,
                                   ms: seq<MatchInfo>, e: set<Piece>, u: set<Piece>)
      requires board.Fits(g)
      reads u0`position
    {
      ColumnAbsorbed(g, ms, x, y) && Grows(m0, ms) && GemSets(ms) == GemSets(ColumnMerges(g, m0, x, y)) &&
      ScanBounded(g, e0, u0, Members(m0), e, u, Members(ms))
    }

    /** The same for the one cell (x, y), scanned from `before`, `e` and `u`. */
    ghost predicate CellProgress(g: Grid, x: int, y: int, before: seq<MatchInfo>, e: set<Piece>, u: set<Piece>,
                                 ms: seq<MatchInfo>, e1: set<Piece>, u1: set<Piece>)
      requires board.Fits(g)
      reads u`position
    {
      CellAbsorbed(g, ms, x, y) && Grows(before, ms) && GemSets(ms) == GemSets(CellMerges(g, before, x, y)) &&
      ScanBounded(g, e, u, Members(before), e1, u1, Members(ms))
    }

    /** One pass of the inner loop: cell (x, y) is scanned, and the loop's invariant
        moves on by one cell. */
    method ScanNextCell(ghost g: Grid, x: int, y: int, rule: AnchorRule, ghost s: set<Piece>,
                        ghost m0: seq<MatchInfo>, ghost e0: set<Piece>, ghost u0: set<Piece>)
      requires board.Shows(g) && OnBoard(g) && board.IsValidPosition(x, y)
      requires ColumnScanned(g, rule, s, x, y, m0, e0, u0)
      modifies this`explosions, this`matches, pieces`isMatch
      ensures ColumnScanned(g, rule, s, x, y + 1, m0, e0, u0)
    {
      ghost var before, done, e, u := matches, ColumnRuns(g, s, x, y), explosions, Unmatched();
      ScanCell(g, x, y, rule, done, before, e, u);
      ColumnScannedNext(g, rule, s, x, y, m0, e0, u0, before, e, u);
    }

    /** What scanning cell (x, y) did, from the clusters `before`, explosions `e` and
        unflagged pieces `u`, moves the inner loop's invariant on by one cell. */
    lemma ColumnScannedNext(g: Grid, rule: AnchorRule, s: set<Piece>, x: int, y: int,
                            m0: seq<MatchInfo>, e0: set<Piece>, u0: set<Piece>,
                            before: seq<MatchInfo>, e: set<Piece>, u: set<Piece>)
      requires board.Fits(g) && 0 <= y
      requires ColumnProgress(g, x, y, m0, e0, u0, before, e, u)
      requires ExplosionsMatched() && ClustersOk(rule)
      requires Within(ColumnRuns(g, s, x, y) + QualifyingRun(g, x, y, 1, 0) + QualifyingRun(g, x, y, 0, 1))
      requires CellProgress(g, x, y, before, e, u, matches, explosions, Unmatched())
      ensures ColumnScanned(g, rule, s, x, y + 1, m0, e0, u0)
    {
      ColumnScanStep(g, x, y, m0, before, matches);
      ScanBoundedStep(g, e0, u0, Members(m0), e, u, Members(before), explosions, Unmatched(), Members(matches));
    }

    /** The list part of the inner loop's invariant moves on by one cell when cell
        (x, y) takes the clusters from `before` to `after`. */
    lemma ColumnScanStep(g: Grid, x: int, y: int, m0: seq<MatchInfo>, before: seq<MatchInfo>, after: seq<MatchInfo>)
      requires board.Fits(g) && 0 <= y
      requires ColumnAbsorbed(g, before, x, y) && Grows(m0, before) && GemSets(before) == GemSets(ColumnMerges(g, m0, x, y))
      requires Grows(before, after) && CellAbsorbed(g, after, x, y) && GemSets(after) == GemSets(CellMerges(g, before, x, y))
      ensures ColumnAbsorbed(g, after, x, y + 1) && Grows(m0, after)
      ensures GemSets(after) == GemSets(ColumnMerges(g, m0, x, y + 1))
    {
      ColumnAbsorbedStep(g, before, after, x, y);
      GrowsTransitive(m0, before, after);
      CellMergesSameSets(g, before, ColumnMerges(g, m0, x, y), x, y);
    }

    /** Every piece the scan may index by its own position carries an in-bounds one. */
    ghost predicate PositionsInBounds()
      reads this`pieces, pieces`position
    {
      forall p :: p in pieces ==> board.InBounds(p.position)
    }

    /** The square blast of the plain bomb in cell (x, y), or nothing when the cell is
        off the board, empty or not a bomb. */
    ghost function BombBlastAt(g: Grid, x: int, y: int): set<Piece>
      requires board.Fits(g)
    {
      if board.IsValidPosition(x, y) && g[x][y] != null && g[x][y].Kind() == Bomb
      then Area(g, GridPosition(x, y), g[x][y].BlastSize(), Square) else {}
    }

    /** The blasts of the bombs next to cell (x, y) (left, right, below, above). */
    ghost function Around(g: Grid, x: int, y: int): set<Piece>
      requires board.Fits(g)
    {
      BombBlastAt(g, x - 1, y) + BombBlastAt(g, x + 1, y) + BombBlastAt(g, x, y - 1) + BombBlastAt(g, x, y + 1)
    }

    /** The blasts of the bombs next to position `c`. */
    ghost function NeighbourBlasts(g: Grid, c: GridPosition): set<Piece>
      requires board.Fits(g)
    {
      Around(g, c.x, c.y)
    }

    /** One neighbour test of `CheckForBombs`: when its guard holds, a bomb in cell
        (x, y) fires its square; `done`, already covered, stays covered. `e0` and `u0`
        are the explosions and the unflagged pieces when the firing began and `a` the
        blasts fired since; the explosions stay within `a`, this square and the blasts
        of the chaining pieces flagged since. */
    method FireIfBomb(ghost g: Grid, guard: bool, x: int, y: int, ghost done: set<Piece>,
                      ghost e0: set<Piece>, ghost u0: set<Piece>, ghost a: set<Piece>)
      requires board.Shows(g) && OnBoard(g) && ExplosionsMatched() && Covered(done)
      requires guard <==> board.IsValidPosition(x, y)
      requires e0 <= explosions && Unmatched() <= u0
      requires explosions <= e0 + a + ChainAreas(g, Chained(u0 - Unmatched())) && u0 - Unmatched() <= explosions
      requires ChainFired(g, u0, explosions, Unmatched())
      modifies this`explosions, pieces`isMatch
      ensures ExplosionsMatched() && Covered(done + BombBlastAt(g, x, y))
      ensures old(explosions) <= explosions && Unmatched() <= old(Unmatched())
      ensures explosions <= e0 + (a + BombBlastAt(g, x, y)) + ChainAreas(g, Chained(u0 - Unmatched()))
      ensures ChainFired(g, u0, explosions, Unmatched())
      ensures u0 - Unmatched() <= explosions
    {
      if guard {
        var other := board.GetGem(x, y);
        if other != null && other.Kind() == Bomb {
          assert Area(g, GridPosition(x, y), other.BlastSize(), Square) == BombBlastAt(g, x, y);
          ghost var e, u := explosions, Unmatched();
          MarkBlastArea(g, GridPosition(x, y), other.BlastSize(), Square);
          ChainStep(g, e0, e, explosions, a, BombBlastAt(g, x, y), u0, u, Unmatched());
          FlipStep(u0, u, Unmatched(), e, explosions);
          ChainFiredStep(g, u0, u, Unmatched(), e, explosions);
        }
      }
    }

    /** The first two neighbour tests of `CheckForBombs`: left, then right. */
    method FireRowNeighbours(ghost g: Grid, x: int, y: int, ghost done: set<Piece>,
                             ghost e0: set<Piece>, ghost u0: set<Piece>, ghost a: set<Piece>)
      requires board.Shows(g) && OnBoard(g) && ExplosionsMatched() && Covered(done) && board.IsValidPosition(x, y)
      requires e0 <= explosions && Unmatched() <= u0
      requires explosions <= e0 + a + ChainAreas(g, Chained(u0 - Unmatched())) && u0 - Unmatched() <= explosions
      requires ChainFired(g, u0, explosions, Unmatched())
      modifies this`explosions, pieces`isMatch
      ensures ExplosionsMatched() && Covered(done + BombBlastAt(g, x - 1, y) + BombBlastAt(g, x + 1, y))
      ensures old(explosions) <= explosions && Unmatched() <= old(Unmatched())
      ensures explosions <= e0 + (a + BombBlastAt(g, x - 1, y) + BombBlastAt(g, x + 1, y)) + ChainAreas(g, Chained(u0 - Unmatched()))
      ensures ChainFired(g, u0, explosions, Unmatched())
      ensures u0 - Unmatched() <= explosions
    {
      FireIfBomb(g, x > 0, x - 1, y, done, e0, u0, a);
      FireIfBomb(g, x + 1 < board.width, x + 1, y, done + BombBlastAt(g, x - 1, y), e0, u0, a + BombBlastAt(g, x - 1, y));
    }

    /** The last two neighbour tests of `CheckForBombs`: below, then above. */
    method FireColumnNeighbours(ghost g: Grid, x: int, y: int, ghost done: set<Piece>,
                                ghost e0: set<Piece>, ghost u0: set<Piece>, ghost a: set<Piece>)
      requires board.Shows(g) && OnBoard(g) && ExplosionsMatched() && Covered(done) && board.IsValidPosition(x, y)
      requires e0 <= explosions && Unmatched() <= u0
      requires explosions <= e0 + a + ChainAreas(g, Chained(u0 - Unmatched())) && u0 - Unmatched() <= explosions
      requires ChainFired(g, u0, explosions, Unmatched())
      modifies this`explosions, pieces`isMatch
      ensures ExplosionsMatched() && Covered(done + BombBlastAt(g, x, y - 1) + BombBlastAt(g, x, y + 1))
      ensures old(explosions) <= explosions && Unmatched() <= old(Unmatched())
      ensures explosions <= e0 + (a + BombBlastAt(g, x, y - 1) + BombBlastAt(g, x, y + 1)) + ChainAreas(g, Chained(u0 - Unmatched()))
      ensures ChainFired(g, u0, explosions, Unmatched())
      ensures u0 - Unmatched() <= explosions
    {
      FireIfBomb(g, y > 0, x, y - 1, done, e0, u0, a);
      FireIfBomb(g, y + 1 < board.height, x, y + 1, done + BombBlastAt(g, x, y - 1), e0, u0, a + BombBlastAt(g, x, y - 1));
    }

    /** The body of `CheckForBombs` for one piece standing at (x, y): each in-board
        neighbour that holds a bomb fires its square. `e0`, `u0` and `a` are as for
        `FireIfBomb`. */
    method FireNeighbourBombs(ghost g: Grid, x: int, y: int, ghost done: set<Piece>,
                              ghost e0: set<Piece>, ghost u0: set<Piece>, ghost a: set<Piece>)
      requires board.Shows(g) && OnBoard(g) && ExplosionsMatched() && Covered(done) && board.IsValidPosition(x, y)
      requires e0 <= explosions && Unmatched() <= u0
      requires explosions <= e0 + a + ChainAreas(g, Chained(u0 - Unmatched())) && u0 - Unmatched() <= explosions
      requires ChainFired(g, u0, explosions, Unmatched())
      modifies this`explosions, pieces`isMatch
      ensures ExplosionsMatched() && Covered(done + Around(g, x, y))
      ensures old(explosions) <= explosions && Unmatched() <= old(Unmatched())
      ensures explosions <= e0 + (a + Around(g, x, y)) + ChainAreas(g, Chained(u0 - Unmatched()))
      ensures ChainFired(g, u0, explosions, Unmatched())
      ensures u0 - Unmatched() <= explosions
    {
      FireRowNeighbours(g, x, y, done, e0, u0, a);
      FireColumnNeighbours(g, x, y, done + BombBlastAt(g, x - 1, y) + BombBlastAt(g, x + 1, y),
                           e0, u0, a + BombBlastAt(g, x - 1, y) + BombBlastAt(g, x + 1, y));
      assert done + BombBlastAt(g, x - 1, y) + BombBlastAt(g, x + 1, y) + BombBlastAt(g, x, y - 1) + BombBlastAt(g, x, y + 1) == done + Around(g, x, y);
      assert a + BombBlastAt(g, x - 1, y) + BombBlastAt(g, x + 1, y) + BombBlastAt(g, x, y - 1) + BombBlastAt(g, x, y + 1) == a + Around(g, x, y);
    }


    /** The blasts of the bombs next to any piece of `s`. */
    ghost function BlastsAround(g: Grid, s: set<Piece>): set<Piece>
      requires board.Fits(g)
      reads s`position
    {
      set p, q | p in s && q in NeighbourBlasts(g, p.position) :: q
    }

    /** The blasts around the pieces handled so far, `gems - rest`, grow by those next
        to `p` when `p` is handled. */
    lemma BlastsAroundAdd(g: Grid, gems: set<Piece>, rest: set<Piece>, p: Piece)
      requires board.Fits(g) && p in rest && rest <= gems
      ensures BlastsAround(g, gems - (rest - {p})) == BlastsAround(g, gems - rest) + NeighbourBlasts(g, p.position)
    {
      assert gems - (rest - {p}) == gems - rest + {p};
    }

    /** One turn of the inner loop of `CheckForBombs`: the piece `p` of `rest` fires the
        bombs next to it. Requires and ensures the loop's invariants before and after
        the turn; `e0` and `u0` are the explosions and the unflagged pieces when the
        loop began. */
    method FireAroundOne(ghost g: Grid, gems: set<Piece>, ghost rest: set<Piece>, p: Piece, ghost done: set<Piece>,
                         ghost e0: set<Piece>, ghost u0: set<Piece>)
      requires board.Shows(g) && OnBoard(g) && p in rest && rest <= gems
      requires forall q :: q in gems ==> board.InBounds(q.position)
      requires ExplosionsMatched() && Covered(done + BlastsAround(g, gems - rest))
      requires e0 <= explosions && Unmatched() <= u0
      requires explosions <= e0 + BlastsAround(g, gems - rest) + ChainAreas(g, Chained(u0 - Unmatched()))
      requires ChainFired(g, u0, explosions, Unmatched())
      requires u0 - Unmatched() <= explosions
      modifies this`explosions, pieces`isMatch
      ensures ExplosionsMatched() && Covered(done + BlastsAround(g, gems - (rest - {p})))
      ensures e0 <= explosions && Unmatched() <= u0
      ensures explosions <= e0 + BlastsAround(g, gems - (rest - {p})) + ChainAreas(g, Chained(u0 - Unmatched()))
      ensures ChainFired(g, u0, explosions, Unmatched())
      ensures u0 - Unmatched() <= explosions
    {
      var x, y := p.position.x, p.position.y;
      ghost var before, after := BlastsAround(g, gems - rest), BlastsAround(g, gems - (rest - {p}));
      BlastsAroundAdd(g, gems, rest, p);
      assert done + before + Around(g, x, y) == done + after;
      FireNeighbourBombs(g, x, y, done + before, e0, u0, before);
    }

    /** The inner `foreach (var gem in matchInfo.MatchedGems)` loop of `CheckForBombs`. */
    method CheckClusterForBombs(ghost g: Grid, gems: set<Piece>, ghost done: set<Piece>, ghost around: set<Piece>)
      requires board.Shows(g) && OnBoard(g) && ExplosionsMatched() && Covered(done)
      requires forall p :: p in gems ==> board.InBounds(p.position)
      requires around == BlastsAround(g, gems)
      modifies this`explosions, pieces`isMatch
      ensures ExplosionsMatched() && Covered(done + around)
      ensures old(explosions) <= explosions && Unmatched() <= old(Unmatched())
      ensures explosions <= old(explosions) + around + ChainAreas(g, Chained(old(Unmatched()) - Unmatched()))
      ensures Covered(ChainAreas(g, Chained(old(Unmatched()) - Unmatched())))
      ensures old(Unmatched()) - Unmatched() <= explosions
    {
      NothingFired(g, Unmatched(), explosions, Unmatched());
      var rest := gems;
      while rest != {}
        invariant rest <= gems
        invariant ExplosionsMatched() && Covered(done + BlastsAround(g, gems - rest))
        invariant old(explosions) <= explosions && Unmatched() <= old(Unmatched())
        invariant explosions <= old(explosions) + BlastsAround(g, gems - rest) + ChainAreas(g, Chained(old(Unmatched()) - Unmatched()))
        invariant ChainFired(g, old(Unmatched()), explosions, Unmatched())
        invariant old(Unmatched()) - Unmatched() <= explosions
        decreases rest
      {
        var p :| p in rest;
        FireAroundOne(g, gems, rest, p, done, old(explosions), old(Unmatched()));
        rest := rest - {p};
      }
      assert gems - rest == gems;
    }

    /** The blasts of the bombs next to any piece of the first clusters of `ms`. */
    ghost function ClusterBlasts(g: Grid, ms: seq<MatchInfo>): set<Piece>
      requires board.Fits(g) && forall k :: 0 <= k < |ms| ==> ms[k].gems <= pieces
      reads this`pieces, pieces`position
    {
      if ms == [] then {} else ClusterBlasts(g, ms[..|ms| - 1]) + BlastsAround(g, ms[|ms| - 1].gems)
    }

    lemma ClusterBlastsStep(g: Grid, blasts: set<Piece>, i: int)
      requires board.Fits(g) && 0 <= i < |matches| && forall k :: 0 <= k < |matches| ==> matches[k].gems <= pieces
      requires blasts == ClusterBlasts(g, matches[..i])
      ensures blasts + BlastsAround(g, matches[i].gems) == ClusterBlasts(g, matches[..i + 1])
    {
      assert matches[..i + 1][..i] == matches[..i];
    }

    /** Flags only ever turn on, so flagged clusters stay flagged. */
    lemma ClustersStayMatched(unmatched: set<Piece>)
      requires forall k :: 0 <= k < |matches| ==> matches[k].gems !! unmatched
      requires Unmatched() <= unmatched
      ensures ClustersFlagged()
    {
    }

    /** One turn of the outer loop of `CheckForBombs`: the cluster `matches[i]` fires
        the bombs next to its pieces. Requires and ensures the loop's invariants before
        and after the turn; `e0` and `u0` are the explosions and the unflagged pieces
        when the loop began. */
    method CheckOneCluster(ghost g: Grid, i: int, ghost e0: set<Piece>, ghost u0: set<Piece>)
      requires board.Shows(g) && OnBoard(g) && PositionsInBounds() && Within(pieces) && 0 <= i < |matches|
      requires ExplosionsMatched() && Covered(ClusterBlasts(g, matches[..i]))
      requires e0 <= explosions && Unmatched() <= u0
      requires explosions <= e0 + ClusterBlasts(g, matches[..i]) + ChainAreas(g, Chained(u0 - Unmatched()))
      requires ChainFired(g, u0, explosions, Unmatched())
      requires u0 - Unmatched() <= explosions
      modifies this`explosions, pieces`isMatch
      ensures ExplosionsMatched() && Covered(ClusterBlasts(g, matches[..i + 1]))
      ensures e0 <= explosions && Unmatched() <= u0 && Unmatched() <= old(Unmatched())
      ensures explosions <= e0 + ClusterBlasts(g, matches[..i + 1]) + ChainAreas(g, Chained(u0 - Unmatched()))
      ensures ChainFired(g, u0, explosions, Unmatched())
      ensures u0 - Unmatched() <= explosions
    {
      ghost var blasts, around := ClusterBlasts(g, matches[..i]), BlastsAround(g, matches[i].gems);
      ClusterBlastsStep(g, blasts, i);
      FireCluster(g, matches[i].gems, blasts, around, e0, u0);
    }

    /** `CheckClusterForBombs` on `gems`, with `blasts` covered and fired before it and
        `around` the blasts next to `gems`. */
    method FireCluster(ghost g: Grid, gems: set<Piece>, ghost blasts: set<Piece>, ghost around: set<Piece>,
                       ghost e0: set<Piece>, ghost u0: set<Piece>)
      requires board.Shows(g) && OnBoard(g) && forall p :: p in gems ==> board.InBounds(p.position)
      requires around == BlastsAround(g, gems)
      requires ExplosionsMatched() && Covered(blasts)
      requires e0 <= explosions && Unmatched() <= u0
      requires explosions <= e0 + blasts + ChainAreas(g, Chained(u0 - Unmatched()))
      requires ChainFired(g, u0, explosions, Unmatched())
      requires u0 - Unmatched() <= explosions
      modifies this`explosions, pieces`isMatch
      ensures ExplosionsMatched() && Covered(blasts + around)
      ensures e0 <= explosions && Unmatched() <= u0 && Unmatched() <= old(Unmatched())
      ensures explosions <= e0 + (blasts + around) + ChainAreas(g, Chained(u0 - Unmatched()))
      ensures ChainFired(g, u0, explosions, Unmatched())
      ensures u0 - Unmatched() <= explosions
    {
      ghost var unmatched, e := Unmatched(), explosions;
      CheckClusterForBombs(g, gems, blasts, around);
      ChainStep(g, e0, e, explosions, blasts, around, u0, unmatched, Unmatched());
      FlipStep(u0, unmatched, Unmatched(), e, explosions);
      ChainFiredStep(g, u0, unmatched, Unmatched(), e, explosions);
    }

    /** The invariant of the outer loop of `CheckForBombs` once the first `i` clusters
        are done, `e0` and `u0` being the explosions and the unflagged pieces when the
        loop began: the clusters stay in shape and flagged; the bombs next to those
        clusters have gone off; every explosion added lies in one of their blasts or in
        that of a chaining piece flagged since, and the latter have gone off too; and
        every piece flagged since explodes. */
    ghost predicate FiredBelow(g: Grid, rule: AnchorRule, i: int, e0: set<Piece>, u0: set<Piece>)
      requires board.Fits(g) && 0 <= i <= |matches|
      reads this`explosions, this`matches, this`pieces, pieces`isMatch, pieces`position, u0`position
    {
      ExplosionsMatched() && ClustersShaped(rule) && ClustersFlagged() &&
      Covered(ClusterBlasts(g, matches[..i])) &&
      e0 <= explosions && Unmatched() <= u0 &&
      explosions <= e0 + ClusterBlasts(g, matches[..i]) + ChainAreas(g, Chained(u0 - Unmatched())) &&
      ChainFired(g, u0, explosions, Unmatched()) &&
      u0 - Unmatched() <= explosions
    }

    /** `CheckOneCluster`, which leaves the clusters in shape and flagged. */
    method CheckNextCluster(ghost g: Grid, ghost rule: AnchorRule, i: int, ghost e0: set<Piece>, ghost u0: set<Piece>)
      requires board.Shows(g) && OnBoard(g) && PositionsInBounds() && 0 <= i < |matches|
      requires FiredBelow(g, rule, i, e0, u0)
      modifies this`explosions, pieces`isMatch
      ensures FiredBelow(g, rule, i + 1, e0, u0)
    {
      ghost var unmatched := Unmatched();
      CheckOneCluster(g, i, e0, u0);
      ClustersStayMatched(unmatched);
    }

    /** `CheckForBombs`: for every piece of every cluster, each bomb in a neighbouring
        cell fires its square. The clusters themselves are left as they are. */
    method CheckForBombs(ghost g: Grid, ghost rule: AnchorRule)
      requires board.Shows(g) && OnBoard(g) && PositionsInBounds()
      requires ExplosionsMatched() && ClustersOk(rule)
      modifies this`explosions, pieces`isMatch
      ensures ExplosionsMatched() && ClustersOk(rule)
      ensures Covered(ClusterBlasts(g, matches))
      ensures old(explosions) <= explosions && Unmatched() <= old(Unmatched())
      ensures explosions <= old(explosions) + ClusterBlasts(g, matches) + ChainAreas(g, Chained(old(Unmatched()) - Unmatched()))
      ensures Covered(ChainAreas(g, Chained(old(Unmatched()) - Unmatched())))
      ensures old(Unmatched()) - Unmatched() <= explosions
    {
      ghost var e0, u0 := explosions, Unmatched();
      NothingFired(g, u0, e0, u0);
      assert matches[..0] == [];
      for i := 0 to |matches|
        invariant FiredBelow(g, rule, i, e0, u0)
      {
        CheckNextCluster(g, rule, i, e0, u0);
      }
      assert matches[..|matches|] == matches;
    }

    /** Every cell's pieces are the scan's universe, and each knows an in-bounds position. */
    lemma StartScan(g: Grid)
      requires board.Fits(g) && pieces == board.PiecesIn(g)
      requires forall i, j :: board.IsValidPosition(i, j) && g[i][j] != null ==> board.InBounds(g[i][j].position)
      ensures OnBoard(g) && PositionsInBounds()
    {
      forall i, j | 0 <= i < board.width && 0 <= j < board.height && g[i][j] != null
        ensures g[i][j] in pieces
      {
      }
      forall p | p in pieces
        ensures board.InBounds(p.position)
      {
        var i, j :| 0 <= i < board.width && 0 <= j < board.height && g[i][j] == p;
      }
    }

    /** The nested `for x`, `for y` loops of `FindAllMatches`. */
    method ScanBoard(ghost g: Grid, rule: AnchorRule)
      requires board.Shows(g) && OnBoard(g) && matches == [] && ExplosionsMatched()
      modifies this`explosions, this`matches, pieces`isMatch
      ensures ExplosionsMatched() && ClustersOk(rule)
      ensures Within(RunPieces(g, board.width))
      ensures BoardAbsorbed(g, matches, board.width)
      ensures GemSets(matches) == GemSets(BoardMerges(g, board.width))
      ensures ScanBounded(g, old(explosions), old(Unmatched()), old(Members(matches)), explosions, Unmatched(), Members(matches))
    {
      for x := 0 to board.width
        invariant ExplosionsMatched() && ClustersOk(rule)
        invariant Within(RunPieces(g, x))
        invariant BoardAbsorbed(g, matches, x)
        invariant GemSets(matches) == GemSets(BoardMerges(g, x))
        invariant ScanBounded(g, old(explosions), old(Unmatched()), old(Members(matches)), explosions, Unmatched(), Members(matches))
      {
        ghost var before, done, e, u := matches, RunPieces(g, x), explosions, Unmatched();
        ScanColumn(g, x, rule, done);
        assert done == RunPieces(g, x);
        BoardStaysAbsorbed(g, before, matches, x);
        ColumnMergesSameSets(g, before, BoardMerges(g, x), x, board.height);
        ScanBoundedStep(g, old(explosions), old(Unmatched()), old(Members(matches)), e, u, Members(before),
                        explosions, Unmatched(), Members(matches));
      }
    }

    /** `CheckForBombs` after the scan: with `e0`, `u0` and `m0` the explosions, the
        unflagged pieces and the cluster members before the scan, the explosions stay
        within the blasts next to the clusters and those of the chaining pieces
        flagged since, the blasts of those chaining pieces have all gone off, and every
        piece flagged since is a member or an explosion. */
    method FireAllBombs(ghost g: Grid, ghost rule: AnchorRule, ghost e0: set<Piece>, ghost u0: set<Piece>, ghost m0: set<Piece>)
      requires board.Shows(g) && OnBoard(g) && PositionsInBounds()
      requires ExplosionsMatched() && ClustersOk(rule)
      requires ScanBounded(g, e0, u0, m0, explosions, Unmatched(), Members(matches))
      modifies this`explosions, pieces`isMatch
      ensures ExplosionsMatched() && ClustersOk(rule) && Covered(ClusterBlasts(g, matches))
      ensures Unmatched() <= u0
      ensures explosions <= e0 + ClusterBlasts(g, matches) + ChainAreas(g, Chained(u0 - Unmatched()))
      ensures Covered(ChainAreas(g, Chained(u0 - Unmatched())))
      ensures u0 - Unmatched() <= Members(matches) + explosions
    {
      ghost var e1, u1 := explosions, Unmatched();
      CheckForBombs(g, rule);
      ChainStep(g, e0, e1, explosions, {}, ClusterBlasts(g, matches), u0, u1, Unmatched());
      FlipStep(u0, u1, Unmatched(), Members(matches) + e1, Members(matches) + explosions);
      ChainFiredStep(g, u0, u1, Unmatched(), e1, explosions);
    }

    /** `FindAllMatches`: clear the explosions and the cluster list, scan the board,
        then fire the bombs next to clustered pieces. Afterwards every cluster holds
        three or more flagged pieces of one type anchored as `rule` allows, every
        clustered piece belongs to some run of three, every such run lies inside one
        cluster, every bomb next to a clustered piece has gone off, and so has the blast
        of every colour bomb, and of every plain bomb when bombs chain, that the pass
        flagged. */
    method FindAllMatches(ghost g: Grid, rule: AnchorRule)
      requires board.Shows(g)
      requires forall i, j :: board.IsValidPosition(i, j) && g[i][j] != null ==> board.InBounds(g[i][j].position)
      modifies this`explosions, this`matches, this`pieces, board.PiecesIn(g)`isMatch
      ensures pieces == board.PiecesIn(g)
      ensures ExplosionsMatched() && ClustersOk(rule)
      ensures GemSets(matches) == GemSets(BoardMerges(g, board.width))
      ensures Within(RunPieces(g, board.width))
      ensures forall i, j :: 0 <= i < board.width && 0 <= j < board.height ==> CellAbsorbed(g, matches, i, j)
      ensures Covered(ClusterBlasts(g, matches))
      ensures explosions <= ClusterBlasts(g, matches) + ChainAreas(g, Chained(old(Unflagged(board.PiecesIn(g))) - Unmatched()))
      ensures Covered(ChainAreas(g, Chained(old(Unflagged(board.PiecesIn(g))) - Unmatched())))
      ensures Unmatched() == old(Unflagged(board.PiecesIn(g))) - Members(matches) - explosions
    {
      explosions := {};
      matches := [];
      pieces := board.PiecesIn(g);
      StartScan(g);
      ghost var u0 := Unmatched();
      assert u0 == old(Unflagged(board.PiecesIn(g)));
      ScanBoard(g, rule);
      BoardAbsorbedCells(g, matches, board.width);
      ghost var runs := RunPieces(g, board.width);
      FireAllBombs(g, rule, {}, u0, {});
      assert runs == RunPieces(g, board.width);
      MembersApart(matches, Unmatched());
      FlagsSettle(u0, Unmatched(), Members(matches), explosions);
    }

  }
}
