/** The game-state holder (`GameStateProvider`, present twice) and `SwapService`: a drag
    angle chooses the neighbour to exchange with, both pieces take each other's place at
    once, and the exchange is undone when neither of them ends up matched. */
module Swapping {
  import opened Wrappers
  import opened Positions
  import opened Pieces
  import opened Boards

  /** The `GameState` enumeration: the player may move, or the board is busy. */
  datatype GameState = Move | Wait

  /** `GameStateProvider`: one field, written only by `SetState`. */
  class GameStateProvider {
    var currentState: GameState

    /** A new provider starts in `move`. */
    constructor ()
      ensures currentState == Move
    {
      currentState := Move;
    }

    /** The `CurrentState` property: reading it changes nothing. */
    function CurrentState(): GameState
      reads this
    {
      currentState
    }

    /** `SetState(newState)`: the new state is the one given, whatever came before. */
    method SetState(newState: GameState)
      modifies this
      ensures currentState == newState
    {
      currentState := newState;
    }
  }

  /** The four swap directions: +X, +Y, -Y and -X. */
  datatype Direction = Right | Up | Down | Left

  /** The neighbour of `p` in direction `d`. */
  function Step(p: GridPosition, d: Direction): GridPosition
  {
    match d
    case Right => p.(x := p.x + 1)
    case Up => p.(y := p.y + 1)
    case Down => p.(y := p.y - 1)
    case Left => p.(x := p.x - 1)
  }

  /** The opposite direction. */
  function Reverse(d: Direction): Direction
  {
    match d
    case Right => Left
    case Up => Down
    case Down => Up
    case Left => Right
  }

  /** The angle band of each case of the switch in `GetOtherGem`, ignoring its guard:
      (-45, 45) is +X, (45, 135] is +Y, [-135, -45) is -Y, beyond 135 either way is -X. */
  function Band(angle: real): (r: Option<Direction>)
    ensures r.None? <==> angle == 45.0 || angle == -45.0
  {
    if -45.0 < angle < 45.0 then Some(Right)
    else if 45.0 < angle <= 135.0 then Some(Up)
    else if -135.0 <= angle < -45.0 then Some(Down)
    else if angle > 135.0 || angle < -135.0 then Some(Left)
    else None
  }

  /** The guard of each case as written: `X < RowsSize - 1` for +X and `Y < ColsSize - 1`
      for +Y, although the board's width is `ColsSize` and its height `RowsSize`. */
  predicate GuardAsWritten(p: GridPosition, d: Direction, rowsSize: int, colsSize: int)
  {
    match d
    case Right => p.x < rowsSize - 1
    case Up => p.y < colsSize - 1
    case Down => p.y > 0
    case Left => p.x > 0
  }

  /** `GetOtherGem`'s case analysis as written. */
  function DirectionAsWritten(angle: real, p: GridPosition, rowsSize: int, colsSize: int): Option<Direction>
  {
    var b := Band(angle);
    if b.Some? && GuardAsWritten(p, b.value, rowsSize, colsSize) then b else None
  }

  /** The guard each case evidently means: the neighbour is on a `width` by `height` board. */
  predicate Guard(p: GridPosition, d: Direction, width: int, height: int)
  {
    match d
    case Right => p.x < width - 1
    case Up => p.y < height - 1
    case Down => p.y > 0
    case Left => p.x > 0
  }

  /** `GetOtherGem`'s case analysis with the corrected guards; `None` when no case applies. */
  function SwapDirection(angle: real, p: GridPosition, width: int, height: int): Option<Direction>
  {
    var b := Band(angle);
    if b.Some? && Guard(p, b.value, width, height) then b else None
  }

  /** The bands split every angle but exactly 45 and -45 into the four directions, each
      band giving one direction. */
  lemma BandsCover(angle: real)
    ensures angle != 45.0 && angle != -45.0 ==> Band(angle).Some?
    ensures Band(angle) == Some(Right) <==> -45.0 < angle < 45.0
    ensures Band(angle) == Some(Up) <==> 45.0 < angle <= 135.0
    ensures Band(angle) == Some(Down) <==> -135.0 <= angle < -45.0
    ensures Band(angle) == Some(Left) <==> angle > 135.0 || angle < -135.0
  {
  }

  /** The direction mirrored across the x axis. */
  function Flip(d: Direction): Direction
  {
    match d
    case Right => Right
    case Up => Down
    case Down => Up
    case Left => Left
  }

  /** The bands are symmetric about the x axis: negating the angle mirrors the chosen
      direction, and leaves the two unresolved angles unresolved. */
  lemma BandMirror(angle: real)
    ensures Band(-angle) == if Band(angle).Some? then Some(Flip(Band(angle).value)) else None
  {
  }

  /** A resolved direction on a board position always names a neighbour on the board;
      no direction is resolved exactly when the angle is 45 or -45 or the guard fails. */
  lemma SwapStaysOnBoard(angle: real, p: GridPosition, width: int, height: int)
    requires 0 <= p.x < width && 0 <= p.y < height
    ensures SwapDirection(angle, p, width, height).Some? ==>
              var q := Step(p, SwapDirection(angle, p, width, height).value);
              0 <= q.x < width && 0 <= q.y < height
    ensures SwapDirection(angle, p, width, height).None? <==>
              angle == 45.0 || angle == -45.0 || !Guard(p, Band(angle).value, width, height)
  {
  }

  /** On a square board the guards as written and the corrected ones agree. */
  lemma SquareBoardsAgree(angle: real, p: GridPosition, size: int)
    ensures DirectionAsWritten(angle, p, size, size) == SwapDirection(angle, p, size, size)
  {
  }

  /** As written, a board of 3 rows and 2 columns lets a drag to the right from (1, 0)
      through, although column 2 does not exist. */
  lemma AsWrittenLeavesBoard()
    ensures DirectionAsWritten(0.0, GridPosition(1, 0), 3, 2) == Some(Right)
    ensures !(0 <= Step(GridPosition(1, 0), Right).x < 2)
    ensures SwapDirection(0.0, GridPosition(1, 0), 2, 3) == None
  {
  }

  /** The positions a swap leaves: the dragged piece one step along `d`, the other one
      step back, and the dragged piece remembering where it came from. */
  datatype Placement = Placement(gemAt: GridPosition, otherAt: GridPosition, gemPrev: GridPosition)

  /** `GetOtherGem`'s position updates. */
  function Exchange(gemAt: GridPosition, otherAt: GridPosition, d: Direction): Placement
  {
    Placement(Step(gemAt, d), Step(otherAt, Reverse(d)), gemAt)
  }

  /** The revert in `CheckMoveAsync`: the other piece goes where the dragged one is, and
      the dragged one back to its previous position. */
  function Revert(s: Placement): Placement
  {
    Placement(s.gemPrev, s.gemAt, s.gemPrev)
  }

  /** Two neighbours trade places, and a revert puts both back where they started. */
  lemma RevertUndoesExchange(gemAt: GridPosition, d: Direction)
    ensures var s := Exchange(gemAt, Step(gemAt, d), d);
            s.gemAt == Step(gemAt, d) && s.otherAt == gemAt &&
            Revert(s).gemAt == gemAt && Revert(s).otherAt == Step(gemAt, d)
  {
  }

  /** Stepping forward and then back returns to the start. */
  lemma StepBack(p: GridPosition, d: Direction)
    ensures Step(Step(p, d), Reverse(d)) == p
  {
  }

  class SwapService {
    const board: Board
    const gameState: GameStateProvider
    /** The dragged piece and the piece it is exchanged with. */
    var gem: Piece?
    var otherGem: Piece?

    constructor (board: Board, gameState: GameStateProvider)
      ensures this.board == board && this.gameState == gameState && gem == null && otherGem == null
    {
      this.board := board;
      this.gameState := gameState;
      gem := null;
      otherGem := null;
    }

    /** The neighbour the drag picks, or null when no case applies. */
    function Partner(p: GridPosition, angle: real): Piece?
      requires board.Valid() && board.InBounds(p)
      reads board.cells
    {
      var d := SwapDirection(angle, p, board.width, board.height);
      SwapStaysOnBoard(angle, p, board.width, board.height);
      if d.Some? then board.cells[Step(p, d.value).x, Step(p, d.value).y] else null
    }

    /** `GetOtherGem(gemView)`: when a case applies, the neighbour in that direction
        becomes `otherGem`, is flagged as swapping and steps back, while `gem` remembers
        its position and steps forward; otherwise nothing changes. */
    method GetOtherGem(angle: real)
      requires gem != null && board.Valid() && board.InBounds(gem.position)
      requires Partner(gem.position, angle) != gem
      requires SwapDirection(angle, gem.position, board.width, board.height).Some? ==> Partner(gem.position, angle) != null
      modifies this`otherGem, gem`position, gem`prevPosition
      modifies {Partner(gem.position, angle)}`position, {Partner(gem.position, angle)}`isSwap
      ensures var p := old(gem.position);
              var d := SwapDirection(angle, p, board.width, board.height);
              if d.None? then
                otherGem == old(otherGem) && gem.position == p && gem.prevPosition == old(gem.prevPosition)
              else
                var o := otherGem;
                o == old(Partner(gem.position, angle)) && o != null && o.isSwap &&
                Placement(gem.position, o.position, gem.prevPosition) == Exchange(p, old(o.position), d.value)
    {
      SwapStaysOnBoard(angle, gem.position, board.width, board.height);
      var pos := gem.position;
      if -45.0 < angle < 45.0 && pos.x < board.width - 1 {
        otherGem := board.GetGem(pos.x + 1, pos.y);
        otherGem.isSwap := true;
        otherGem.position := otherGem.position.(x := otherGem.position.x - 1);
        gem.prevPosition := gem.position;
        gem.position := gem.position.(x := gem.position.x + 1);
      } else if 45.0 < angle <= 135.0 && pos.y < board.height - 1 {
        otherGem := board.GetGem(pos.x, pos.y + 1);
        otherGem.isSwap := true;
        otherGem.position := otherGem.position.(y := otherGem.position.y - 1);
        gem.prevPosition := gem.position;
        gem.position := gem.position.(y := gem.position.y + 1);
      } else if -135.0 <= angle < -45.0 && pos.y > 0 {
        otherGem := board.GetGem(pos.x, pos.y - 1);
        otherGem.isSwap := true;
        otherGem.position := otherGem.position.(y := otherGem.position.y + 1);
        gem.prevPosition := gem.position;
        gem.position := gem.position.(y := gem.position.y - 1);
      } else if (angle > 135.0 || angle < -135.0) && pos.x > 0 {
        otherGem := board.GetGem(pos.x - 1, pos.y);
        otherGem.isSwap := true;
        otherGem.position := otherGem.position.(x := otherGem.position.x + 1);
        gem.prevPosition := gem.position;
        gem.position := gem.position.(x := gem.position.x - 1);
      }
    }

    /** `CheckMoveAsync` with the waits for the animation taken as done: the state becomes
        `wait`; when neither piece is matched (as the match scan left their flags) the other
        piece takes the dragged one's position, the dragged one returns to its previous
        position, both are flagged as swapping and written back, and the state is `move`
        again; otherwise nothing is reverted and the state stays `wait`. */
    method CheckMove()
      requires gem != null && otherGem != null && gem != otherGem && board.Valid()
      requires board.InBounds(gem.position) && board.InBounds(gem.prevPosition)
      modifies gameState, board.cells, gem`position, gem`isSwap, otherGem`position, otherGem`isSwap
      ensures var p := old(gem.position);
              var back := gem.prevPosition;
              if !gem.isMatch && !otherGem.isMatch then
                gameState.currentState == Move &&
                otherGem.position == p && gem.position == back && gem.isSwap && otherGem.isSwap &&
                board.cells[p.x, p.y] == otherGem && (back != p ==> board.cells[back.x, back.y] == gem) &&
                forall i, j :: 0 <= i < board.width && 0 <= j < board.height && GridPosition(i, j) != p && GridPosition(i, j) != back ==>
                  board.cells[i, j] == old(board.cells[i, j])
              else
                gameState.currentState == Wait &&
                gem.position == p && otherGem.position == old(otherGem.position) &&
                gem.isSwap == old(gem.isSwap) && otherGem.isSwap == old(otherGem.isSwap) &&
                forall i, j :: 0 <= i < board.width && 0 <= j < board.height ==> board.cells[i, j] == old(board.cells[i, j])
    {
      gameState.SetState(Wait);
      if otherGem != null {
        if gem.isMatch == false && otherGem.isMatch == false {
          otherGem.position := gem.position;
          gem.position := gem.prevPosition;
          gem.isSwap := true;
          otherGem.isSwap := true;
          board.SetGem(gem.position.x, gem.position.y, gem);
          board.SetGem(otherGem.position.x, otherGem.position.y, otherGem);
          gameState.SetState(Move);
        }
      }
    }

    /** `MovePieces(gem)`: choose the partner, exchange the two, write both into the grid at
        their new positions, then check the move. The drag must resolve to a direction
        (otherwise `otherGem` is null or left over from an earlier swap), and the partner
        stands where its `Position` says. Unmatched, the swap is undone cell for cell and
        the player may move again; matched, the two stay exchanged and the board is busy. */
    method MovePieces(piece: Piece, angle: real)
      requires board.Valid() && board.InBounds(piece.position)
      requires SwapDirection(angle, piece.position, board.width, board.height).Some?
      requires Partner(piece.position, angle) != null && Partner(piece.position, angle) != piece
      requires Partner(piece.position, angle).position ==
                 Step(piece.position, SwapDirection(angle, piece.position, board.width, board.height).value)
      modifies this`gem, this`otherGem, board.cells, gameState
      modifies piece`position, piece`prevPosition, piece`isSwap
      modifies {Partner(piece.position, angle)}`position, {Partner(piece.position, angle)}`isSwap
      ensures var p := old(piece.position);
              var q := Step(p, SwapDirection(angle, p, board.width, board.height).value);
              var o := otherGem;
              gem == piece && o == old(Partner(piece.position, angle)) && o != null &&
              piece.prevPosition == p && o.isSwap &&
              piece.isMatch == old(piece.isMatch) && o.isMatch == old(o.isMatch) &&
              (if !piece.isMatch && !o.isMatch then
                 gameState.currentState == Move && piece.position == p && o.position == q && piece.isSwap &&
                 board.cells[p.x, p.y] == piece && board.cells[q.x, q.y] == o
               else
                 gameState.currentState == Wait && piece.position == q && o.position == p &&
                 piece.isSwap == old(piece.isSwap) &&
                 board.cells[q.x, q.y] == piece && board.cells[p.x, p.y] == o) &&
              forall i, j :: 0 <= i < board.width && 0 <= j < board.height && GridPosition(i, j) != p && GridPosition(i, j) != q ==>
                board.cells[i, j] == old(board.cells[i, j])
    {
      ghost var p := piece.position;
      ghost var d := SwapDirection(angle, p, board.width, board.height).value;
      SwapStaysOnBoard(angle, p, board.width, board.height);
      StepBack(p, d);
      ghost var q := Step(p, d);
      gem := piece;
      GetOtherGem(angle);
      assert gem.position == q && otherGem.position == p && gem.prevPosition == p;
      board.SetGem(gem.position.x, gem.position.y, gem);
      board.SetGem(otherGem.position.x, otherGem.position.y, otherGem);
      assert board.cells[q.x, q.y] == piece && board.cells[p.x, p.y] == otherGem;
      CheckMove();
    }
  }
}
