/** Fixed game rules: the configuration constants, the proximity gate around the
    player's cell, the deterministic spawn rule that gives a cell its first
    token, and the rectangles of cells a view covers. */
module Rules {
  import opened CellKeys

  const InteractionRadiusCells: int := 3
  const TokenSpawnProbability: real := 0.25
  const TargetTokenValue: int := 64

  function Abs(x: int): nat {
    if x < 0 then -x else x
  }

  function Max(a: int, b: int): int {
    if a < b then b else a
  }

  /** The proximity gate: the Chebyshev distance from the player's cell to
      (i, j) is at most the interaction radius, i.e. (i, j) lies in the
      7 by 7 square of cells centred on the player. */
  function IsCellNearPlayer(player: Coord, i: int, j: int): (near: bool)
    ensures near <==>
      && player.0 - InteractionRadiusCells <= i <= player.0 + InteractionRadiusCells
      && player.1 - InteractionRadiusCells <= j <= player.1 + InteractionRadiusCells
  {
    Max(Abs(i - player.0), Abs(j - player.1)) <= InteractionRadiusCells
  }

  /** Distance 3 along either axis passes the gate; distance 4 does not. */
  lemma NearPlayerBoundary(player: Coord)
    ensures IsCellNearPlayer(player, player.0 + 3, player.1 - 3)
    ensures IsCellNearPlayer(player, player.0 - 3, player.1)
    ensures !IsCellNearPlayer(player, player.0 + 4, player.1)
    ensures !IsCellNearPlayer(player, player.0, player.1 - 4)
  {
  }

  /** Key of the draw that decides whether a cell starts with a token. */
  function ExistsKey(i: int, j: int): string {
    "cell-exists:" + CellKey(i, j)
  }

  /** Key of the draw that decides which token an occupied cell starts with. */
  function ValueKey(i: int, j: int): string {
    "cell-value:" + CellKey(i, j)
  }

  /** The first token of cell (i, j). `luck` is the game's deterministic
      string-keyed draw in [0, 1): empty unless the existence draw falls below
      the spawn probability, then 1 or 2 by the value draw. */
  function SpawnInitialToken(luck: string -> real, i: int, j: int): (t: int)
    ensures t == 0 || t == 1 || t == 2
    ensures t == 0 <==> luck(ExistsKey(i, j)) >= TokenSpawnProbability
    ensures t == 1 <==> luck(ExistsKey(i, j)) < TokenSpawnProbability && luck(ValueKey(i, j)) < 0.5
  {
    if luck(ExistsKey(i, j)) >= TokenSpawnProbability then 0
    else if luck(ValueKey(i, j)) < 0.5 then 1
    else 2
  }

  /** The two draws of one cell use different keys, and no two cells share a
      draw, so every draw the spawn rule makes is its own. */
  lemma SpawnKeysDistinct(i1: int, j1: int, i2: int, j2: int)
    ensures ExistsKey(i1, j1) != ValueKey(i2, j2)
    ensures ExistsKey(i1, j1) == ExistsKey(i2, j2) <==> i1 == i2 && j1 == j2
    ensures ValueKey(i1, j1) == ValueKey(i2, j2) <==> i1 == i2 && j1 == j2
  {
    assert ExistsKey(i1, j1)[5] != ValueKey(i2, j2)[5];
    var e, v := "cell-exists:", "cell-value:";
    assert ExistsKey(i1, j1)[|e|..] == CellKey(i1, j1);
    assert ExistsKey(i2, j2)[|e|..] == CellKey(i2, j2);
    assert ValueKey(i1, j1)[|v|..] == CellKey(i1, j1);
    assert ValueKey(i2, j2)[|v|..] == CellKey(i2, j2);
    CellKeyInjective(i1, j1, i2, j2);
  }

  /** Spawning depends on nothing but the cell's own two draws: two sessions
      whose draws agree on those keys give the cell the same first token. */
  lemma SpawnDeterministic(luck1: string -> real, luck2: string -> real, i: int, j: int)
    requires luck1(ExistsKey(i, j)) == luck2(ExistsKey(i, j))
    requires luck1(ValueKey(i, j)) == luck2(ValueKey(i, j))
    ensures SpawnInitialToken(luck1, i, j) == SpawnInitialToken(luck2, i, j)
  {
  }

  predicate IsPowerOfTwo(n: int)
    decreases if n < 0 then 0 else n
  {
    n == 1 || (n > 1 && n % 2 == 0 && IsPowerOfTwo(n / 2))
  }

  /** The values a token can take: 0 (empty) or 1, 2, 4, 8, ... */
  predicate IsTokenValue(t: int) {
    t == 0 || IsPowerOfTwo(t)
  }

  lemma PowerOfTwoDoubles(n: int)
    requires IsPowerOfTwo(n)
    ensures IsPowerOfTwo(2 * n) && 2 * n > n
  {
    assert (2 * n) / 2 == n;
  }

  /** Every spawned token is a token value. */
  lemma SpawnIsTokenValue(luck: string -> real, i: int, j: int)
    ensures IsTokenValue(SpawnInitialToken(luck, i, j))
  {
    assert IsPowerOfTwo(2) by { assert IsPowerOfTwo(1); }
  }

  /** An inclusive rectangle of cell coordinates, [minI, maxI] x [minJ, maxJ]. */
  datatype Window = Window(minI: int, maxI: int, minJ: int, maxJ: int)

  predicate InWindow(win: Window, c: Coord) {
    win.minI <= c.0 <= win.maxI && win.minJ <= c.1 <= win.maxJ
  }

  function WindowCells(win: Window): (cells: set<Coord>)
    ensures forall c :: c in cells <==> InWindow(win, c)
  {
    set i: int, j: int | win.minI <= i <= win.maxI && win.minJ <= j <= win.maxJ :: (i, j)
  }
}
