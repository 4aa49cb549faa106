/** Positions on a Minesweeper board and the counting facts about sets of
    positions that the game's bookkeeping relies on. */
module Board {

  /** A plate's position: (row, column). */
  type Pos = (int, int)

  /** The position lies on a board of `width` rows and `height` columns.
      As in MinesGrid.IsInGrid, the row is bounded by the width and the
      column by the height. */
  predicate InGrid(width: int, height: int, p: Pos) {
    0 <= p.0 < width && 0 <= p.1 < height
  }

  /** Every position of the board. */
  function Cells(width: int, height: int): (s: set<Pos>)
    ensures forall p :: p in s <==> InGrid(width, height, p)
  {
    set r, c | 0 <= r < width && 0 <= c < height :: (r, c)
  }

  /** The positions of one row of the board. */
  function RowCells(row: int, height: int): (s: set<Pos>)
    ensures forall p :: p in s <==> p.0 == row && 0 <= p.1 < height
  {
    set c | 0 <= c < height :: (row, c)
  }

  lemma {:induction false} RowCellsCount(row: int, height: nat)
    ensures |RowCells(row, height)| == height
  {
    if height > 0 {
      RowCellsCount(row, height - 1);
      assert RowCells(row, height) == RowCells(row, height - 1) + {(row, height - 1)};
    }
  }

  /** A board of `width` rows and `height` columns has `width * height` plates. */
  lemma {:induction false} CellsCount(width: nat, height: nat)
    ensures |Cells(width, height)| == width * height
  {
    if width > 0 {
      CellsCount(width - 1, height);
      RowCellsCount(width - 1, height);
      LastRowSplit(width, height);
      DisjointUnionCard(Cells(width - 1, height), RowCells(width - 1, height));
      assert (width - 1) * height + height == width * height;
    }
  }

  /** A board is the board one row shorter plus its last row, which the
      shorter board does not contain. */
  lemma LastRowSplit(width: int, height: int)
    requires width > 0
    ensures Cells(width, height) == Cells(width - 1, height) + RowCells(width - 1, height)
    ensures Cells(width - 1, height) !! RowCells(width - 1, height)
  {
  }

  lemma {:induction false} SubsetCard<T>(a: set<T>, b: set<T>)
    requires a <= b
    ensures |a| <= |b|
  {
    if a != {} {
      var x :| x in a;
      SubsetCard(a - {x}, b - {x});
    }
  }

  /** A subset at least as large as its superset is the superset. */
  lemma SubsetSameCard<T>(a: set<T>, b: set<T>)
    requires a <= b && |b| <= |a|
    ensures a == b
  {
    if a != b {
      assert exists y :: y in b && y !in a;
      var x :| x in b && x !in a;
      SubsetCard(a, b - {x});
    }
  }

  /** Two disjoint sets together have the sum of their sizes. */
  lemma DisjointUnionCard<T>(a: set<T>, b: set<T>)
    requires a !! b
    ensures |a + b| == |a| + |b|
  {
    assert a * b == {};
  }

  /** The flags after the flag on `p` is put on or taken off. */
  function Toggled(flagged: set<Pos>, p: Pos): set<Pos> {
    if p in flagged then flagged - {p} else flagged + {p}
  }

  /** Toggling a flag twice restores the flags. */
  lemma ToggleTwice(flagged: set<Pos>, p: Pos)
    ensures Toggled(Toggled(flagged, p), p) == flagged
  {
  }

  /** While fewer than `width * height` plates are mined, some plate is not. */
  lemma FreeCellExists(width: nat, height: nat, mined: set<Pos>)
    requires forall p :: p in mined ==> InGrid(width, height, p)
    requires |mined| < width * height
    ensures exists p :: InGrid(width, height, p) && p !in mined
  {
    CellsCount(width, height);
    if forall p :: InGrid(width, height, p) ==> p in mined {
      SubsetCard(Cells(width, height), mined);
      assert false;
    }
  }

  /** When the flags on mined plates are as many as the mines and no flag
      is on a safe plate, the flags are exactly the mines. */
  lemma FlagsAreMines(onMined: set<Pos>, onSafe: set<Pos>, mined: set<Pos>)
    requires onMined <= mined && onSafe !! mined
    requires |onSafe| == 0 && |onMined| == |mined|
    ensures onMined + onSafe == mined
  {
    assert onSafe == {};
    SubsetSameCard(onMined, mined);
  }
}
