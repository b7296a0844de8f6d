# Grid merge game engine, in Dafny

This project models the engine of a single-player map game. The world is an
unbounded grid of cells laid over real-world coordinates. A cell starts with a
token (1 or 2) or with none, by a deterministic spawn rule keyed by its
coordinates. The player holds at most one token. They can pick up a token from a
nearby cell, drop it into an empty nearby cell, or merge it into a nearby cell
that holds the same value, which doubles that cell's token. Holding a token of
value 64 or more wins the game, once.

Modules:

- `Options` (options.dfy): the optional value used for the held token (None is an
  empty hand) and for the result of parsing a cell key.
- `CellKeys` (keys.dfy): the `"i,j"` string key that the store files each cell
  under, a parser for it, and the proof that it names each coordinate uniquely.
  Because of that proof the rest of the model keys the store by the pair `(i, j)`.
- `Rules` (rules.dfy): the constants (radius 3, spawn probability 0.25, target
  64), the Chebyshev proximity gate, the spawn rule, token values (0 or a power
  of two), and inclusive rectangles of cells.
- `World` (world.dfy): the game state as a value, and the transitions as
  functions: lazy cell creation, the click state machine, the win check, and
  covering a rectangle of cells. The properties of these transitions are proved
  here: the five click outcomes, the click frame, the win flag, token values,
  conservation of the token total, and lazy creation and window covering.
  The proximity and spawn lemmas are in `Rules`, and the key round trip is in
  `CellKeys`.
- `Game` (game.dfy): class `Session`. Its fields are the program's mutable state:
  the store, the held token, the win flag, the player's cell, and the set of
  drawn cells. Its methods update these in place. The store lookup, drawing,
  window covering, win check and click methods are each proved against the
  matching function in `World`. The constructor and `MovePlayerTo` have no
  such counterpart; their contracts state the whole new state directly.

The draw function `luck` is passed to the session as a fixed function from
strings to reals. It is applied to `"cell-exists:i,j"` and `"cell-value:i,j"`.
The player's position is given as the player's cell.

## Model

| member | source | states |
|---|---|---|
| `CellKeys.IntToString` | src/main.ts:77-79 | the decimal form of a coordinate is non-empty, holds only digits with an optional leading minus sign, and starts with '-' exactly for negative numbers |
| `CellKeys.CellKeyRoundTrip` | src/main.ts:77-79 | parsing the key `"i,j"` gives back exactly (i, j) |
| `CellKeys.CellKeyInjective` | src/main.ts:77-79 | two cells have the same store key if and only if they are the same cell, so keying the store by pairs is faithful |
| `Rules.IsCellNearPlayer` | src/main.ts:105-111 | a cell passes the proximity gate iff it lies within 3 rows and 3 columns of the player's cell, i.e. its Chebyshev distance is at most 3 |
| `Rules.NearPlayerBoundary` | src/main.ts:105-111 | distance 3 is accepted and distance 4 is rejected, on each axis |
| `Rules.SpawnInitialToken` | src/main.ts:114-120 | the first token is 0, 1 or 2; it is 0 exactly when the existence draw is at least 0.25; it is 1 exactly when that draw is below 0.25 and the value draw is below 0.5 |
| `Rules.SpawnKeysDistinct` | src/main.ts:114-120 | the existence and value draws use different keys, and no two cells share a draw key |
| `Rules.SpawnDeterministic` | src/main.ts:114-120 | a cell's first token depends only on its own two draws, so two sessions whose draws agree give it the same token |
| `Rules.SpawnIsTokenValue` | src/main.ts:114-120 | every spawned token is 0 or a power of two |
| `Rules.PowerOfTwoDoubles` | src/main.ts:270-272 | doubling a power of two in a merge gives a larger power of two |
| `World.Materialize` | src/main.ts:122-130 | looking up a cell adds only that cell, keeps every existing entry, and gives a new cell its spawned token |
| `World.MaterializeIdempotent` | src/main.ts:122-130 | a second lookup of the same cell changes nothing; the first lookup adds at most one entry |
| `World.WinAfterCheck` | src/main.ts:207-212 | the win flag never goes from true to false, and it is newly raised exactly when the hand holds a value of at least 64 |
| `World.ClickTransitions` | src/main.ts:235-282 | the five branches with their statuses: too far changes nothing; pick-up moves the cell's token to the hand, empties the cell and runs the win check; an empty cell with an empty hand changes nothing but creation; drop moves the hand into the empty cell and reports `Placed`; merge sets the cell to twice the hand, empties the hand, leaves the win flag alone and reports `Merged`; a mismatch leaves hand and tokens unchanged |
| `World.ClickScenarios` | src/main.ts:235-282 | worked clicks: pick up 2, drop 2, merge 2 into 4 without a win, a 1-versus-2 mismatch, a winning pick-up of 64, and a click at distance 4 |
| `World.ClickTouchesOnlyClickedCell` | src/main.ts:235-282 | a click never creates, removes or changes any cell other than the clicked one |
| `World.ClickWinMonotone` | src/main.ts:244-267 | a click never clears the win flag; when the flag is down, the click raises it if and only if it is a pick-up of a token of at least 64, which is then in hand |
| `World.ClickPreservesWellFormed` | src/main.ts:235-282 | after any click every cell token is 0 or a power of two, and a held token is a power of two |
| `World.ClickConservesTokens` | src/main.ts:235-282 | the held token plus all cell tokens is unchanged by every click, merge included; the only addition is the spawned token of a cell that the click creates |
| `World.CoverWindow` | src/main.ts:182-187 | after covering a rectangle, the store's cells are exactly the old cells plus the rectangle's cells |
| `World.CoverWindowProperties` | src/main.ts:182-187 | every rectangle cell is in the store, existing tokens are unchanged, new entries lie in the rectangle and hold spawned tokens, and covering again changes nothing |
| `World.CoverWindowCommutes` | src/main.ts:172-188 | covering two rectangles in either order yields the same store |
| `Game.Session.constructor` | src/main.ts:42-47 | a new session has an empty store, an empty hand, no win, nothing drawn, and the given player cell |
| `Game.Session.GetOrCreateCellState` | src/main.ts:122-130 | returns the existing token unchanged, or creates the cell with its spawned token; no other entry changes |
| `Game.Session.CreateCellLayer` | src/main.ts:135-160 | drawing a cell creates it in the store if needed and registers it as drawn |
| `Game.Session.UpdateCellLayer` | src/main.ts:162-170 | redrawing a cell leaves it drawn and in the store |
| `Game.Session.EnsureGridCoversView` | src/main.ts:172-188 | after the nested loops every cell of the inclusive rectangle is drawn and stored, existing tokens are unchanged, and the store equals `CoverWindow` of the old one |
| `Game.Session.CheckWinCondition` | src/main.ts:207-212 | sets the win flag as `WinAfterCheck` says; nothing else changes |
| `Game.Session.MovePlayerTo` | src/main.ts:215-222 | the player's cell becomes the given cell; nothing else changes |
| `Game.Session.HandleCellClick` | src/main.ts:235-282 | the new state and the status are those of `Click`; only a pick-up, drop or merge redraws the clicked cell; too far changes nothing; other cells are untouched; the token total is conserved; the win flag is monotone and, when down, is raised if and only if the click picks up a token of at least 64 |

## Left out

- Map rendering is not modelled: the Leaflet map, tiles, markers, rectangles, labels, event wiring and panning (src/main.ts:50-71, 135-160, 225-232). These are drawing calls into a library that is not part of this model. A drawn cell is modelled only as membership in `displayed`.
- Panels, status text and alerts are not modelled (`updateHandDisplay`, `setStatus`, `alert`). They only produce output. A click's status message is modelled as the `Status` value it reports.
- Latitude/longitude arithmetic is not modelled (`latLngToCell`, `cellToBounds`, `cellCenterLatLng`, and the bounds computation at src/main.ts:173-180). It is floating point. The player position is modelled as the player's cell, and `EnsureGridCoversView` takes the integer rectangle as input.
- `luck` is not part of this model. It is an abstract function, fixed for the session, from key strings to reals. Its range [0, 1) is never used by the game's logic.
- Token values are unbounded integers. JavaScript numbers lose precision above 2^53, which would take more than fifty merges. This is not modelled.
- In the source, `getOrCreateCellState` returns the stored object and the click handler mutates it in place. The model returns the token instead, and the handler writes the new token back into the store map. The resulting store is the same.
- src/main.ts has no display-set eviction and no save/load, so neither is modelled.
- `checkWinCondition` is called after a pick-up and after a drop (src/main.ts:251, 265). After a drop the hand is already null (src/main.ts:262), so that call never wins. The model does the same: `WinAfterCheck(hasWon, None)` is `hasWon`. A merge does not run the check, so a merged token of 64 in a cell wins only once it is picked up.
