/** `BombService` in both lineages: a bomb of the right kind is spawned on every
    bomb-creation position, remembered as newly created and kept out of `explosions`. */
module Bombs {
  import opened Positions
  import opened Pieces
  import opened Boards
  import opened Scanning

  /** The first prefab of type `t`, or null when there is none. */
  function FirstOfKind(prefabs: seq<Piece>, t: GemType): (r: Piece?)
  {
    FirstFrom(prefabs, t, 0)
  }

  /** The first prefab of type `t` at index `i` or later. */
  function FirstFrom(prefabs: seq<Piece>, t: GemType, i: nat): (r: Piece?)
    decreases |prefabs| - i
  {
    if i >= |prefabs| then null
    else if prefabs[i].Kind() == t then prefabs[i]
    else FirstFrom(prefabs, t, i + 1)
  }

  /** Searching from `i` finds a prefab exactly when one of type `t` sits at `i` or
      later, and it is the earliest such entry. */
  lemma {:induction false} FirstFromIsFirst(prefabs: seq<Piece>, t: GemType, i: nat)
    ensures FirstFrom(prefabs, t, i) != null <==> exists n :: i <= n < |prefabs| && prefabs[n].Kind() == t
    ensures FirstFrom(prefabs, t, i) != null ==>
              exists n :: i <= n < |prefabs| && prefabs[n] == FirstFrom(prefabs, t, i) && prefabs[n].Kind() == t &&
                          forall j :: i <= j < n ==> prefabs[j].Kind() != t
    decreases |prefabs| - i
  {
    if i < |prefabs| {
      if prefabs[i].Kind() != t {
        FirstFromIsFirst(prefabs, t, i + 1);
      } else {
        assert prefabs[i] == FirstFrom(prefabs, t, i);
      }
    }
  }

  /** A prefab is found exactly when one of type `t` is configured, and it is the
      earliest such entry. */
  lemma FirstOfKindIsFirst(prefabs: seq<Piece>, t: GemType)
    ensures FirstOfKind(prefabs, t) != null <==> exists n :: 0 <= n < |prefabs| && prefabs[n].Kind() == t
    ensures FirstOfKind(prefabs, t) != null ==>
              exists n :: 0 <= n < |prefabs| && prefabs[n] == FirstOfKind(prefabs, t) && prefabs[n].Kind() == t &&
                          forall j :: 0 <= j < n ==> prefabs[j].Kind() != t
  {
    FirstFromIsFirst(prefabs, t, 0);
  }

  /** `p` is a copy of `prefab` standing at `pos`. */
  predicate SpawnedFrom(p: Piece, prefab: Piece?, pos: GridPosition)
    reads p
  {
    prefab != null && p.data == prefab.data && p.position == pos
  }

  /** `pos` is among the first `n` positions of `keys`. */
  predicate Chosen(keys: seq<GridPosition>, n: nat, pos: GridPosition)
    requires n <= |keys|
  {
    pos in keys[..n]
  }

  /** One more round chooses exactly one more position. */
  lemma ChosenStep(keys: seq<GridPosition>, n: nat)
    requires n < |keys|
    ensures forall pos :: Chosen(keys, n + 1, pos) <==> Chosen(keys, n, pos) || pos == keys[n]
  {
    assert keys[..n + 1] == keys[..n] + [keys[n]];
    forall pos
      ensures Chosen(keys, n + 1, pos) <==> Chosen(keys, n, pos) || pos == keys[n]
    {
      assert pos in keys[..n + 1] <==> pos in keys[..n] + [keys[n]];
    }
  }

  class BombService {
    const scanner: MatchScanner
    const board: Board
    /** The configured bomb prefabs (`GemBombs`). */
    const gemBombs: seq<Piece>

    constructor (scanner: MatchScanner, gemBombs: seq<Piece>)
      ensures this.scanner == scanner && board == scanner.board && this.gemBombs == gemBombs
    {
      this.scanner := scanner;
      board := scanner.board;
      this.gemBombs := gemBombs;
    }

    /** `GetBombPrefabForType(type)`: the `foreach` with an early return. */
    method GetBombPrefabForType(t: GemType) returns (r: Piece?)
      ensures r == FirstOfKind(gemBombs, t)
    {
      for i := 0 to |gemBombs|
        invariant FirstFrom(gemBombs, t, i) == FirstOfKind(gemBombs, t)
      {
        if gemBombs[i].Kind() == t {
          return gemBombs[i];
        }
      }
      return null;
    }

    /** After `n` rounds of `CreateBombs` over `keys`: the cell of each of the first `n`
        positions holds the bomb `made` records for it, a copy of the prefab for its type
        standing there, and every other cell still holds what `g` shows. */
    ghost predicate Progress(keys: seq<GridPosition>, bombPositions: map<GridPosition, GemType>, n: nat, made: seq<Piece>, g: Grid)
      reads board.cells, made
    {
      board.Valid() && board.Fits(g) && |made| == n <= |keys| &&
      (forall m :: 0 <= m < |keys| ==> keys[m] in bombPositions && board.InBounds(keys[m])) &&
      (forall m :: 0 <= m < n ==> board.cells[keys[m].x, keys[m].y] == made[m]) &&
      (forall m :: 0 <= m < n ==> SpawnedFrom(made[m], FirstOfKind(gemBombs, bombPositions[keys[m]]), keys[m])) &&
      (forall i, j :: 0 <= i < board.width && 0 <= j < board.height && !Chosen(keys, n, GridPosition(i, j)) ==>
         board.cells[i, j] == g[i][j])
    }

    /** `CreateBombs(bombPositions, newlyCreatedBombs)`. The dictionary is visited in the
        order `keys`, which lists each of its positions once. Every position ends up
        holding a new bomb of the first prefab for its type; the new bombs join
        `newlyCreatedBombs` and leave `explosions`; no other cell changes. */
    method CreateBombs(keys: seq<GridPosition>, bombPositions: map<GridPosition, GemType>, newly: set<Piece>)
      returns (newlyAfter: set<Piece>)
      requires board.Valid()
      requires forall k :: k in bombPositions <==> k in keys
      requires forall i, j :: 0 <= i < j < |keys| ==> keys[i] != keys[j]
      requires forall k :: k in bombPositions ==> board.InBounds(k) && FirstOfKind(gemBombs, bombPositions[k]) != null
      modifies board.cells, scanner`explosions
      ensures forall k :: k in bombPositions ==>
                board.InBounds(k) && board.cells[k.x, k.y] != null &&
                SpawnedFrom(board.cells[k.x, k.y], FirstOfKind(gemBombs, bombPositions[k]), k)
      ensures forall p :: p in newlyAfter <==> p in newly || exists k :: k in bombPositions && board.InBounds(k) && board.cells[k.x, k.y] == p
      ensures forall p :: p in scanner.explosions <==>
                p in old(scanner.explosions) && !exists k :: k in bombPositions && board.InBounds(k) && board.cells[k.x, k.y] == p
      ensures forall i, j :: 0 <= i < board.width && 0 <= j < board.height && GridPosition(i, j) !in bombPositions ==>
                board.cells[i, j] == old(board.cells[i, j])
    {
      newlyAfter := newly;
      ghost var g := board.Contents();
      ghost var made: seq<Piece> := [];
      for n := 0 to |keys|
        invariant Progress(keys, bombPositions, n, made, g)
        invariant forall p :: p in newlyAfter <==> p in newly || p in made
        invariant forall p :: p in scanner.explosions <==> p in old(scanner.explosions) && p !in made
      {
        var newBomb := CreateBombAt(keys, bombPositions, n, made, g);
        newlyAfter := newlyAfter + {newBomb};
        made := made + [newBomb];
      }
      Finished(keys, bombPositions, made, g);
    }

    /** Once every position has had its round, the positions are exactly the cells
        that hold the new bombs and the rest of the board is as `g` shows it. */
    lemma Finished(keys: seq<GridPosition>, bombPositions: map<GridPosition, GemType>, made: seq<Piece>, g: Grid)
      requires Progress(keys, bombPositions, |keys|, made, g)
      requires forall k :: k in bombPositions <==> k in keys
      ensures forall k :: k in bombPositions ==>
                board.InBounds(k) && board.cells[k.x, k.y] != null &&
                SpawnedFrom(board.cells[k.x, k.y], FirstOfKind(gemBombs, bombPositions[k]), k)
      ensures forall p :: p in made <==> exists k :: k in bombPositions && board.InBounds(k) && board.cells[k.x, k.y] == p
      ensures forall i, j :: 0 <= i < board.width && 0 <= j < board.height && GridPosition(i, j) !in bombPositions ==>
                board.cells[i, j] == g[i][j]
    {
      assert keys[..|keys|] == keys;
      forall p
        ensures p in made <==> exists k :: k in bombPositions && board.InBounds(k) && board.cells[k.x, k.y] == p
      {
        if p in made {
          var m :| 0 <= m < |made| && made[m] == p;
          assert keys[m] in bombPositions && board.cells[keys[m].x, keys[m].y] == p;
        }
      }
    }

    /** One round of `CreateBombs`: a new bomb from the prefab for the type of position
        `keys[n]`, spawned there, stored in that cell and taken out of `explosions`. */
    method CreateBombAt(keys: seq<GridPosition>, bombPositions: map<GridPosition, GemType>, n: nat, ghost made: seq<Piece>, ghost g: Grid)
      returns (newBomb: Piece)
      requires n < |keys| && Progress(keys, bombPositions, n, made, g)
      requires forall i, j :: 0 <= i < j < |keys| ==> keys[i] != keys[j]
      requires FirstOfKind(gemBombs, bombPositions[keys[n]]) != null
      modifies board.cells, scanner`explosions
      ensures Progress(keys, bombPositions, n + 1, made + [newBomb], g)
      ensures scanner.explosions == old(scanner.explosions) - {newBomb}
    {
      var pos := keys[n];
      assert !Chosen(keys, n, pos) by {
        assert forall m :: 0 <= m < n ==> keys[..n][m] == keys[m] != pos;
      }
      ChosenStep(keys, n);
      var bombPrefab := GetBombPrefabForType(bombPositions[pos]);
      newBomb := SpawnGem(bombPrefab, pos);
      board.SetGem(pos.x, pos.y, newBomb);
      scanner.explosions := scanner.explosions - {newBomb};
    }
  }
}
