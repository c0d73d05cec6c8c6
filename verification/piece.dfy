/** Pieces: the static description of a gem kind and the mutable piece on the board
    (`PieceModel` in the newer lineage, `SC_Gem`'s logical part in the older one). */
module Pieces {
  import opened Positions

  /** The gem type enumeration: ordinary colours plus the one designated bomb type. */
  datatype GemType = Colour(id: nat) | Bomb

  /** `IPieceData`: the read-only configuration a piece forwards. */
  datatype PieceData = PieceData(kind: GemType, isColorBomb: bool, blastSize: int, scoreValue: int)

  class Piece {
    const data: PieceData
    var position: GridPosition
    var prevPosition: GridPosition
    var isMatch: bool
    var isSwap: bool
    var isMoving: bool
    var justSpawned: bool
    /** Whether the cancellation token source is still held (not yet disposed). */
    var hasTokenSource: bool

    function Kind(): GemType { data.kind }
    function IsColorBomb(): bool { data.isColorBomb }
    function BlastSize(): int { data.blastSize }
    function ScoreValue(): int { data.scoreValue }

    /** `PieceModel(pieceData, position)`. */
    constructor (pieceData: PieceData, pos: GridPosition)
      ensures data == pieceData
      ensures position == pos && prevPosition == pos
      ensures !isMatch && !isSwap && !isMoving && !justSpawned
      ensures hasTokenSource
    {
      data := pieceData;
      position := pos;
      prevPosition := pos;
      isMatch := false;
      isSwap := false;
      isMoving := false;
      justSpawned := false;
      hasTokenSource := true;
    }

    /** `Dispose`: releases the token source; calling it again changes nothing. */
    method Dispose()
      modifies this`hasTokenSource
      ensures !hasTokenSource
    {
      hasTokenSource := false;
    }
  }

  /** The gem pool's `SpawnGem(prefab, position, ...)` followed by the piece's `SetupGem`:
      a piece of the prefab's kind standing at `position`, flagged as just spawned. */
  method SpawnGem(prefab: Piece, position: GridPosition) returns (p: Piece)
    ensures fresh(p) && p.data == prefab.data
    ensures p.position == position && p.prevPosition == position
    ensures p.justSpawned && !p.isMatch && !p.isSwap && !p.isMoving
  {
    p := new Piece(prefab.data, position);
    p.justSpawned := true;
  }
}
