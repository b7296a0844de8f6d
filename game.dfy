/** The game session as the program runs it: module-level mutable state (the
    cell store, the held token, the win flag, the player's cell and the set of
    cells currently drawn) gathered into one object whose methods update it in
    place. The lookup, drawing, covering, win check and click methods are
    proved against the transitions of module World. */
module Game {
  import opened Options
  import opened CellKeys
  import opened Rules
  import opened World

  class Session {
    /** The deterministic draw the spawn rule uses. */
    const luck: string -> real
    /** The cell store: every cell created so far and its token. */
    var cells: Store
    /** The held token; None is an empty hand. */
    var hand: Option<int>
    var hasWon: bool
    /** The player's cell. */
    var player: Coord
    /** Cells that currently have a display entry on the map. */
    var displayed: set<Coord>

    function State(): WorldState
      reads this
    {
      WorldState(cells, hand, hasWon)
    }

    /** Tokens are well formed, and only stored cells are ever drawn. */
    ghost predicate Valid()
      reads this
    {
      WellFormed(State()) && displayed <= cells.Keys
    }

    constructor (luck: string -> real, start: Coord)
      ensures Valid()
      ensures this.luck == luck && player == start
      ensures cells == map[] && hand == None && !hasWon && displayed == {}
    {
      this.luck := luck;
      cells := map[];
      hand := None;
      hasWon := false;
      player := start;
      displayed := {};
    }

    /** Looks up cell (i, j), creating it from the spawn rule on first access,
        and returns its token. */
    method GetOrCreateCellState(i: int, j: int) returns (token: int)
      requires Valid()
      modifies this`cells
      ensures Valid()
      ensures cells == Materialize(luck, old(cells), i, j)
      ensures (i, j) in old(cells) ==> cells == old(cells) && token == old(cells)[(i, j)]
      ensures (i, j) !in old(cells) ==> token == SpawnInitialToken(luck, i, j)
      ensures token == cells[(i, j)]
    {
      if (i, j) !in cells {
        SpawnIsTokenValue(luck, i, j);
        cells := cells[(i, j) := SpawnInitialToken(luck, i, j)];
      }
      token := cells[(i, j)];
    }

    /** Draws cell (i, j): creates it in the store if needed and registers its
        display entry. */
    method CreateCellLayer(i: int, j: int)
      requires Valid()
      modifies this`cells, this`displayed
      ensures Valid()
      ensures cells == Materialize(luck, old(cells), i, j)
      ensures displayed == old(displayed) + {(i, j)}
    {
      var _ := GetOrCreateCellState(i, j);
      displayed := displayed + {(i, j)};
    }

    /** Redraws cell (i, j): drops its display entry, if any, and draws it anew. */
    method UpdateCellLayer(i: int, j: int)
      requires Valid()
      modifies this`cells, this`displayed
      ensures Valid()
      ensures cells == Materialize(luck, old(cells), i, j)
      ensures displayed == old(displayed) + {(i, j)}
    {
      displayed := displayed - {(i, j)};
      CreateCellLayer(i, j);
    }

    /** Makes sure every cell of the inclusive rectangle `win` is drawn, drawing
        (and so creating) each cell that is not drawn yet, row by row. */
    method EnsureGridCoversView(win: Window)
      requires Valid()
      modifies this`cells, this`displayed
      ensures Valid()
      ensures displayed == old(displayed) + WindowCells(win)
      ensures cells == CoverWindow(luck, old(cells), win)
      ensures forall c :: InWindow(win, c) ==> c in displayed && c in cells
      ensures forall c :: c in old(cells) ==> c in cells && cells[c] == old(cells)[c]
    {
      var i := win.minI;
      while i <= win.maxI
        invariant Valid()
        invariant win.minI <= i && (i <= win.maxI + 1 || i == win.minI)
        invariant forall c :: c in displayed <==>
          c in old(displayed) || (win.minI <= c.0 < i && win.minJ <= c.1 <= win.maxJ)
        invariant forall c :: c in cells <==>
          c in old(cells) || (win.minI <= c.0 < i && win.minJ <= c.1 <= win.maxJ)
        invariant forall c :: c in cells ==>
          cells[c] == if c in old(cells) then old(cells)[c] else SpawnInitialToken(luck, c.0, c.1)
      {
        var j := win.minJ;
        while j <= win.maxJ
          invariant Valid()
          invariant win.minJ <= j && (j <= win.maxJ + 1 || j == win.minJ)
          invariant forall c :: c in displayed <==>
            c in old(displayed) || (win.minI <= c.0 < i && win.minJ <= c.1 <= win.maxJ)
              || (c.0 == i && win.minJ <= c.1 < j)
          invariant forall c :: c in cells <==>
            c in old(cells) || (win.minI <= c.0 < i && win.minJ <= c.1 <= win.maxJ)
              || (c.0 == i && win.minJ <= c.1 < j)
          invariant forall c :: c in cells ==>
            cells[c] == if c in old(cells) then old(cells)[c] else SpawnInitialToken(luck, c.0, c.1)
        {
          if (i, j) !in displayed {
            CreateCellLayer(i, j);
          }
          j := j + 1;
        }
        i := i + 1;
      }
      assert cells.Keys == CoverWindow(luck, old(cells), win).Keys;
    }

    /** Raises the win flag, once, when the hand holds at least the target value. */
    method CheckWinCondition()
      modifies this`hasWon
      ensures hasWon == WinAfterCheck(old(hasWon), hand)
    {
      if !hasWon && hand.Some? && hand.value >= TargetTokenValue {
        hasWon := true;
      }
    }

    /** Moves the player to another cell; nothing else changes. */
    method MovePlayerTo(c: Coord)
      modifies this`player
      ensures player == c
    {
      player := c;
    }

    /** Handles a click on cell (i, j): rejects it when too far from the player,
        otherwise picks up, drops, merges or reports a mismatch. */
    method HandleCellClick(i: int, j: int) returns (status: Status)
      requires Valid()
      modifies this`cells, this`hand, this`hasWon, this`displayed
      ensures Valid()
      ensures Outcome(State(), status) == Click(luck, player, old(State()), i, j)
      ensures displayed == if status.Moved() then old(displayed) + {(i, j)} else old(displayed)
      ensures status == TooFar ==> State() == old(State())
      ensures forall c :: c != (i, j) ==>
        (c in cells <==> c in old(cells)) && (c in old(cells) ==> cells[c] == old(cells)[c])
      ensures TotalTokens(State()) == TotalTokens(old(State())) +
        (if status != TooFar && (i, j) !in old(cells) then SpawnInitialToken(luck, i, j) else 0)
      ensures old(hasWon) ==> hasWon
      ensures !old(hasWon) ==> (hasWon <==> status.PickedUp? && status.token >= TargetTokenValue)
      ensures status.PickedUp? ==> hand == Some(status.token)
    {
      ghost var before := State();
      ClickPreservesWellFormed(luck, player, before, i, j);
      ClickConservesTokens(luck, player, before, i, j);
      ClickWinMonotone(luck, player, before, i, j);
      forall c | c != (i, j)
        ensures (c in Click(luck, player, before, i, j).world.cells <==> c in before.cells)
        ensures c in before.cells ==> Click(luck, player, before, i, j).world.cells[c] == before.cells[c]
      {
        ClickTouchesOnlyClickedCell(luck, player, before, i, j, c);
      }

      if !IsCellNearPlayer(player, i, j) {
        status := TooFar;
        return;
      }

      var token := GetOrCreateCellState(i, j);

      // Picking up
      if hand.None? {
        if token > 0 {
          hand := Some(token);
          cells := cells[(i, j) := 0];
          status := PickedUp(token);
          UpdateCellLayer(i, j);
          CheckWinCondition();
        } else {
          status := NothingToPickUp;
        }
        return;
      }

      // Dropping onto an empty cell
      if token == 0 {
        var h := hand.value;
        cells := cells[(i, j) := h];
        status := Placed(h);
        hand := None;
        UpdateCellLayer(i, j);
        CheckWinCondition();
        return;
      }

      // Merging
      if token == hand.value {
        var newValue := hand.value * 2;
        PowerOfTwoDoubles(hand.value);
        cells := cells[(i, j) := newValue];
        hand := None;
        status := Merged(newValue);
        UpdateCellLayer(i, j);
        return;
      }

      // Mismatch
      status := Mismatch(token, hand.value);
    }
  }
}
