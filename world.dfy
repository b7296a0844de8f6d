/** The logical game state as a value, and the transitions of the game on it:
    lazy creation of a cell, the outcome of clicking a cell, the win check and
    covering a window of cells. The class in module Game runs these transitions
    in place; the properties of the transitions are proved here. */
module World {
  import opened Options
  import opened CellKeys
  import opened Rules

  /** The sparse world store: the token of every cell created so far. */
  type Store = map<Coord, int>

  /** Store, held token (None: empty hand) and the one-shot win flag. */
  datatype WorldState = WorldState(cells: Store, hand: Option<int>, hasWon: bool)

  /** What a click reports on the status line. */
  datatype Status =
    | TooFar
    | NothingToPickUp
    | PickedUp(token: int)
    | Placed(token: int)
    | Merged(token: int)
    | Mismatch(cellToken: int, handToken: int)
  {
    /** The transitions that move a token and redraw the clicked cell. */
    predicate Moved() {
      PickedUp? || Placed? || Merged?
    }
  }

  datatype Outcome = Outcome(world: WorldState, status: Status)

  /** Every cell holds a token value and a held token is a positive one. */
  ghost predicate WellFormed(w: WorldState) {
    && (forall c :: c in w.cells ==> IsTokenValue(w.cells[c]))
    && (w.hand.Some? ==> IsPowerOfTwo(w.hand.value))
  }

  /** The store after looking up cell (i, j): an existing entry is kept as it
      is; a missing one is created from the spawn rule. */
  function Materialize(luck: string -> real, cells: Store, i: int, j: int): (m: Store)
    ensures m.Keys == cells.Keys + {(i, j)}
    ensures forall c :: c in cells ==> m[c] == cells[c]
    ensures (i, j) !in cells ==> m[(i, j)] == SpawnInitialToken(luck, i, j)
  {
    if (i, j) in cells then cells else cells[(i, j) := SpawnInitialToken(luck, i, j)]
  }

  /** Lazy creation is idempotent: a second lookup of the same cell adds nothing
      and changes nothing. The first lookup adds at most one entry. */
  lemma MaterializeIdempotent(luck: string -> real, cells: Store, i: int, j: int)
    ensures Materialize(luck, Materialize(luck, cells, i, j), i, j) == Materialize(luck, cells, i, j)
    ensures |Materialize(luck, cells, i, j)| == if (i, j) in cells then |cells| else |cells| + 1
  {
  }

  /** The win flag after the win check: once set it stays set, and it is newly
      set exactly when the hand holds at least the target value. */
  function WinAfterCheck(hasWon: bool, hand: Option<int>): (won: bool)
    ensures hasWon ==> won
    ensures !hasWon ==> (won <==> hand.Some? && hand.value >= TargetTokenValue)
  {
    hasWon || (hand.Some? && hand.value >= TargetTokenValue)
  }

  /** Clicking cell (i, j) while the player stands on cell `player`. */
  function Click(luck: string -> real, player: Coord, w: WorldState, i: int, j: int): Outcome {
    if !IsCellNearPlayer(player, i, j) then Outcome(w, TooFar)
    else
      var m := Materialize(luck, w.cells, i, j);
      var t := m[(i, j)];
      match w.hand
      case None =>
        if t > 0 then
          var hand := Some(t);
          Outcome(WorldState(m[(i, j) := 0], hand, WinAfterCheck(w.hasWon, hand)), PickedUp(t))
        else
          Outcome(WorldState(m, None, w.hasWon), NothingToPickUp)
      case Some(h) =>
        if t == 0 then
          Outcome(WorldState(m[(i, j) := h], None, WinAfterCheck(w.hasWon, None)), Placed(h))
        else if t == h then
          Outcome(WorldState(m[(i, j) := h * 2], None, w.hasWon), Merged(h * 2))
        else
          Outcome(WorldState(m, w.hand, w.hasWon), Mismatch(t, h))
  }

  /** The five outcomes of a click, in terms of the state before it. */
  lemma ClickTransitions(luck: string -> real, player: Coord, w: WorldState, i: int, j: int)
    ensures var r := Click(luck, player, w, i, j);
      && (!IsCellNearPlayer(player, i, j) ==> r == Outcome(w, TooFar))
      && (IsCellNearPlayer(player, i, j) ==>
            var m := Materialize(luck, w.cells, i, j);
            var t := m[(i, j)];
            && (w.hand.None? && t > 0 ==>
                  && r.world == WorldState(m[(i, j) := 0], Some(t), WinAfterCheck(w.hasWon, Some(t)))
                  && r.status == PickedUp(t))
            && (w.hand.None? && t == 0 ==>
                  r.world == WorldState(m, None, w.hasWon) && r.status == NothingToPickUp)
            && (w.hand.Some? && t == 0 ==>
                  r.world == WorldState(m[(i, j) := w.hand.value], None, w.hasWon) && r.status == Placed(w.hand.value))
            && (w.hand.Some? && t != 0 && t == w.hand.value ==>
                  r.world == WorldState(m[(i, j) := 2 * t], None, w.hasWon) && r.status == Merged(2 * t))
            && (w.hand.Some? && t != 0 && t != w.hand.value ==>
                  r.world == WorldState(m, w.hand, w.hasWon) && r.status == Mismatch(t, w.hand.value)))
  {
  }

  /** Worked clicks with the player on cell (0, 0): a pick-up, a drop, a merge,
      a mismatch, a winning pick-up and a click out of reach. */
  lemma ClickScenarios(luck: string -> real)
    ensures var cells := map[(1, 0) := 2, (2, 0) := 0, (0, 1) := 1, (3, 3) := 64, (4, 0) := 1];
      && Click(luck, (0, 0), WorldState(cells, None, false), 1, 0)
         == Outcome(WorldState(cells[(1, 0) := 0], Some(2), false), PickedUp(2))
      && Click(luck, (0, 0), WorldState(cells, Some(2), false), 2, 0)
         == Outcome(WorldState(cells[(2, 0) := 2], None, false), Placed(2))
      && Click(luck, (0, 0), WorldState(cells, Some(2), false), 1, 0)
         == Outcome(WorldState(cells[(1, 0) := 4], None, false), Merged(4))
      && Click(luck, (0, 0), WorldState(cells, Some(2), false), 0, 1)
         == Outcome(WorldState(cells, Some(2), false), Mismatch(1, 2))
      && Click(luck, (0, 0), WorldState(cells, None, false), 3, 3)
         == Outcome(WorldState(cells[(3, 3) := 0], Some(64), true), PickedUp(64))
      && Click(luck, (0, 0), WorldState(cells, None, false), 4, 0)
         == Outcome(WorldState(cells, None, false), TooFar)
  {
  }

  /** A click touches only the clicked cell: every other cell keeps its entry
      (present or absent) and its token; the clicked cell is created only when
      it passes the proximity gate. */
  lemma ClickTouchesOnlyClickedCell(luck: string -> real, player: Coord, w: WorldState, i: int, j: int, c: Coord)
    requires c != (i, j)
    ensures var w' := Click(luck, player, w, i, j).world;
      && (c in w'.cells <==> c in w.cells)
      && (c in w.cells ==> w'.cells[c] == w.cells[c])
      && ((i, j) in w'.cells && (i, j) !in w.cells ==> IsCellNearPlayer(player, i, j))
  {
  }

  /** The win flag is monotone, and a click raises it exactly when it is a
      pick-up that leaves a token of at least the target value in hand. */
  lemma ClickWinMonotone(luck: string -> real, player: Coord, w: WorldState, i: int, j: int)
    ensures var r := Click(luck, player, w, i, j);
      && (w.hasWon ==> r.world.hasWon)
      && (!w.hasWon ==>
            (r.world.hasWon <==> r.status.PickedUp? && r.status.token >= TargetTokenValue))
      && (r.status.PickedUp? ==> r.world.hand == Some(r.status.token))
  {
  }

  /** Clicks keep every token a power of two (or an empty cell): tokens form
      the sequence 1, 2, 4, 8, ... under merging. */
  lemma ClickPreservesWellFormed(luck: string -> real, player: Coord, w: WorldState, i: int, j: int)
    requires WellFormed(w)
    ensures WellFormed(Click(luck, player, w, i, j).world)
  {
    if IsCellNearPlayer(player, i, j) {
      SpawnIsTokenValue(luck, i, j);
      var m := Materialize(luck, w.cells, i, j);
      if w.hand.Some? && m[(i, j)] == w.hand.value {
        PowerOfTwoDoubles(w.hand.value);
      }
    }
  }

  // ---- Token accounting ----

  function Get(m: Store, c: Coord): int {
    if c in m then m[c] else 0
  }

  ghost function Pick(s: set<Coord>): Coord
    requires s != {}
  {
    var c :| c in s; c
  }

  /** Sum of the tokens of the cells in `s` (absent cells count 0). */
  ghost function SumOver(m: Store, s: set<Coord>): int
    decreases s
  {
    if s == {} then 0 else Get(m, Pick(s)) + SumOver(m, s - {Pick(s)})
  }

  /** The sum over a set may take out any of its members first. */
  lemma {:induction false} SumOverRemove(m: Store, s: set<Coord>, x: Coord)
    requires x in s
    ensures SumOver(m, s) == Get(m, x) + SumOver(m, s - {x})
    decreases s
  {
    var c := Pick(s);
    if c != x {
      SumOverRemove(m, s - {c}, x);
      SumOverRemove(m, s - {x}, c);
      assert s - {c} - {x} == s - {x} - {c};
    }
  }

  /** The sum over a set depends only on the tokens of its members. */
  lemma {:induction false} SumOverAgree(m1: Store, m2: Store, s: set<Coord>)
    requires forall c :: c in s ==> Get(m1, c) == Get(m2, c)
    ensures SumOver(m1, s) == SumOver(m2, s)
    decreases s
  {
    if s != {} {
      SumOverAgree(m1, m2, s - {Pick(s)});
    }
  }

  ghost function CellSum(m: Store): int {
    SumOver(m, m.Keys)
  }

  /** Setting one cell changes the sum of all cells by the difference at that cell. */
  lemma CellSumUpdate(m: Store, k: Coord, v: int)
    ensures CellSum(m[k := v]) == CellSum(m) - Get(m, k) + v
  {
    var m' := m[k := v];
    SumOverRemove(m', m'.Keys, k);
    assert m'.Keys - {k} == m.Keys - {k};
    SumOverAgree(m', m, m.Keys - {k});
    if k in m {
      SumOverRemove(m, m.Keys, k);
    } else {
      assert m.Keys - {k} == m.Keys;
    }
  }

  /** All tokens in play: the held one plus those lying in cells. */
  ghost function TotalTokens(w: WorldState): int {
    (if w.hand.Some? then w.hand.value else 0) + CellSum(w.cells)
  }

  /** Token conservation: pick-up, drop, merge and every rejected click keep the
      held token plus all cell tokens unchanged; the only thing a click adds is
      the spawned token of the clicked cell when the click creates it. */
  lemma ClickConservesTokens(luck: string -> real, player: Coord, w: WorldState, i: int, j: int)
    ensures TotalTokens(Click(luck, player, w, i, j).world) ==
      TotalTokens(w) +
      (if IsCellNearPlayer(player, i, j) && (i, j) !in w.cells then SpawnInitialToken(luck, i, j) else 0)
  {
    if IsCellNearPlayer(player, i, j) {
      var m := Materialize(luck, w.cells, i, j);
      if (i, j) !in w.cells {
        CellSumUpdate(w.cells, (i, j), SpawnInitialToken(luck, i, j));
      }
      assert CellSum(m) == CellSum(w.cells) + Get(m, (i, j)) - Get(w.cells, (i, j));
      var t := m[(i, j)];
      match w.hand
      case None =>
        CellSumUpdate(m, (i, j), 0);
      case Some(h) =>
        if t == 0 {
          CellSumUpdate(m, (i, j), h);
        } else if t == h {
          CellSumUpdate(m, (i, j), h * 2);
        }
    }
  }

  /** The store after covering a window: every cell of the window is present;
      cells already present keep their tokens; new ones come from the spawn rule. */
  function CoverWindow(luck: string -> real, cells: Store, win: Window): (m: Store)
    ensures m.Keys == cells.Keys + WindowCells(win)
  {
    map c | c in cells.Keys + WindowCells(win) :: if c in cells then cells[c] else SpawnInitialToken(luck, c.0, c.1)
  }

  /** Covering a window keeps every existing token, adds only window cells, and
      repeating it changes nothing. */
  lemma CoverWindowProperties(luck: string -> real, cells: Store, win: Window)
    ensures var m := CoverWindow(luck, cells, win);
      && (forall c :: InWindow(win, c) ==> c in m)
      && (forall c :: c in cells ==> c in m && m[c] == cells[c])
      && (forall c :: c in m && c !in cells ==> InWindow(win, c) && m[c] == SpawnInitialToken(luck, c.0, c.1))
      && CoverWindow(luck, m, win) == m
  {
  }

  /** The order in which windows are covered does not matter: the store is a
      function of which cells were ever in view, never of the viewing history. */
  lemma CoverWindowCommutes(luck: string -> real, cells: Store, w1: Window, w2: Window)
    ensures CoverWindow(luck, CoverWindow(luck, cells, w1), w2) == CoverWindow(luck, CoverWindow(luck, cells, w2), w1)
  {
  }
}
