/** The Minesweeper board: its plates, the flag counters, the elapsed-time
    counter and the running/stopped timer, with the operations that
    reveal, flag, flood-fill and detect a win. */
module Minesweeper {
  import opened Board
  import opened Neighbourhood

  /** A C# `int`. */
  newtype int32 = x: int | -0x8000_0000 <= x < 0x8000_0000

  /** The value of an operation, or the message of the exception it throws. */
  datatype Result<T> = Success(value: T) | Failure(message: string)

  class MinesGrid {
    const Width: int
    const Height: int
    const Mines: int

    var TimeElapsed: int32
    var correctFlags: int
    var wrongFlags: int
    /** Whether the game timer is ticking. */
    var running: bool

    // The state of every plate, one matrix per plate field; null until Run.
    var mined: array2?<bool>
    var flagged: array2?<bool>
    var revealed: array2?<bool>

    // Public view: the positions of the mined, flagged and revealed plates,
    // and the flags split into those on mined plates and those on safe ones.
    ghost var Mined: set<Pos>
    ghost var Flagged: set<Pos>
    ghost var Revealed: set<Pos>
    ghost var CorrectlyFlagged: set<Pos>
    ghost var WronglyFlagged: set<Pos>

    /** The board has been laid out by Run and holds its mines: the matrices
        match the view, and `correctFlags` and `wrongFlags` count the flags on
        mined and on safe plates. */
    ghost predicate Valid()
      reads this, mined, flagged, revealed
    {
      Laid() && |Mined| == (if Mines < 0 then 0 else Mines)
    }

    /** Valid but for the number of mines, which Run is still placing. */
    ghost predicate Laid()
      reads this, mined, flagged, revealed
    {
      mined != null && flagged != null && revealed != null &&
      mined != flagged && mined != revealed && flagged != revealed &&
      mined.Length0 == Width && mined.Length1 == Height &&
      flagged.Length0 == Width && flagged.Length1 == Height &&
      revealed.Length0 == Width && revealed.Length1 == Height &&
      InBoard(Width, Height, Mined) && InBoard(Width, Height, Flagged) && InBoard(Width, Height, Revealed) &&
      Mirrors(mined, Mined) && Mirrors(flagged, Flagged) && Mirrors(revealed, Revealed) &&
      FlagBook(Flagged, CorrectlyFlagged, WronglyFlagged, Mined, correctFlags, wrongFlags)
    }

    /** Every position of the set lies on the board. */
    static ghost predicate InBoard(width: int, height: int, s: set<Pos>) {
      forall p :: p in s ==> InGrid(width, height, p)
    }

    /** The matrix holds true exactly at the positions of the set. */
    static ghost predicate Mirrors(a: array2<bool>, s: set<Pos>)
      reads a
    {
      forall r, c {:trigger a[r, c]} :: 0 <= r < a.Length0 && 0 <= c < a.Length1 ==> (a[r, c] <==> (r, c) in s)
    }

    /** The flags split into those on mined plates and those on safe plates,
        counted by `correct` and `wrong`. */
    static ghost predicate FlagBook(flags: set<Pos>, onMined: set<Pos>, onSafe: set<Pos>, mined: set<Pos>, correct: int, wrong: int) {
      (forall q :: q in flags <==> q in onMined || q in onSafe) && onMined <= mined && onSafe !! mined &&
      correct == |onMined| && wrong == |onSafe|
    }

    /** The win condition: no flag on a safe plate, as many flags as mines,
        and every safe plate revealed. */
    ghost predicate Finished()
      reads this
    {
      wrongFlags == 0 && correctFlags + wrongFlags == Mines &&
      Cells(Width, Height) - Mined <= Revealed
    }

    /** What a reveal may change: plates only become revealed, and the timer
        can only be stopped. */
    twostate predicate OnlyReveals()
      reads this
    {
      old(Revealed) <= Revealed && (running ==> old(running))
    }

    constructor (width: int, height: int, mines: int)
      ensures Width == width && Height == height && Mines == mines
      ensures mined == null && flagged == null && revealed == null
      ensures TimeElapsed == 0 && correctFlags == 0 && wrongFlags == 0 && !running
    {
      Width, Height, Mines := width, height, mines;
      TimeElapsed, correctFlags, wrongFlags, running := 0, 0, 0, false;
      mined, flagged, revealed := null, null, null;
    }

    function IsInGrid(row: int, col: int): (b: bool)
      ensures b <==> (row, col) in Cells(Width, Height)
    {
      0 <= row < Width && 0 <= col < Height
    }

    function IsBomb(row: int, col: int): (b: bool)
      requires Valid()
      reads this, mined, flagged, revealed
      ensures b <==> (row, col) in Mined
      ensures !IsInGrid(row, col) ==> !b
    {
      if IsInGrid(row, col) then mined[row, col] else false
    }

    function IsFlagged(row: int, col: int): (b: bool)
      requires Valid()
      reads this, mined, flagged, revealed
      ensures b <==> (row, col) in Flagged
      ensures !IsInGrid(row, col) ==> !b
    {
      if IsInGrid(row, col) then flagged[row, col] else false
    }

    /** The number of flags on the board. */
    function FlaggedMines(): (n: int)
      requires Valid()
      reads this, mined, flagged, revealed
      ensures n == |Flagged|
    {
      assert Flagged == CorrectlyFlagged + WronglyFlagged;
      DisjointUnionCard(CorrectlyFlagged, WronglyFlagged);
      correctFlags + wrongFlags
    }

    /** Lays out a fresh board, places exactly `Mines` mines on distinct
        plates and starts the timer; each grid is run once. */
    method Run()
      requires mined == null && 0 <= Width && 0 <= Height && Mines <= Width * Height
      modifies this
      ensures Valid() && fresh(mined) && fresh(flagged) && fresh(revealed)
      ensures |Mined| == (if Mines < 0 then 0 else Mines) && Flagged == {} && Revealed == {}
      ensures correctFlags == 0 && wrongFlags == 0 && TimeElapsed == 0 && running
    {
      ResetCounters();
      var m, f, v, ms := NewBoard(Width, Height, Mines);
      SetPlates(m, f, v, ms);
      running := true;
    }

    /** The first lines of Run: no flags and no time elapsed. */
    method ResetCounters()
      modifies this`correctFlags, this`wrongFlags, this`TimeElapsed, this`CorrectlyFlagged, this`WronglyFlagged
      ensures correctFlags == 0 && wrongFlags == 0 && TimeElapsed == 0
      ensures CorrectlyFlagged == {} && WronglyFlagged == {}
    {
      correctFlags, wrongFlags, TimeElapsed := 0, 0, 0;
      CorrectlyFlagged, WronglyFlagged := {}, {};
    }

    /** Makes the new matrices the board's plates, with `ms` mined and
        nothing flagged or revealed. */
    method SetPlates(m: array2<bool>, f: array2<bool>, v: array2<bool>, ghost ms: set<Pos>)
      modifies this`mined, this`flagged, this`revealed, this`Mined, this`Flagged, this`Revealed
      ensures mined == m && flagged == f && revealed == v
      ensures Mined == ms && Flagged == {} && Revealed == {}
    {
      mined, flagged, revealed := m, f, v;
      Mined, Flagged, Revealed := ms, {}, {};
    }

    /** The three matrices Run lays out: all cleared, then `count` mines
        placed in the first; `ms` is the set of mined plates. */
    static method NewBoard(width: int, height: int, count: int)
      returns (m: array2<bool>, f: array2<bool>, v: array2<bool>, ghost ms: set<Pos>)
      requires 0 <= width && 0 <= height && count <= width * height
      ensures fresh(m) && fresh(f) && fresh(v) && m != f && m != v && f != v
      ensures m.Length0 == width && m.Length1 == height && f.Length0 == width && f.Length1 == height
      ensures v.Length0 == width && v.Length1 == height
      ensures Mirrors(m, ms) && Mirrors(f, {}) && Mirrors(v, {})
      ensures InBoard(width, height, ms) && |ms| == (if count < 0 then 0 else count)
    {
      m := ClearedMatrix(width, height);
      f := ClearedMatrix(width, height);
      v := ClearedMatrix(width, height);
      ms := PlaceMines(m, count);
    }

    /** A new `width` by `height` matrix with every entry false, as Run's
        first double loop leaves each of its three matrices. */
    static method ClearedMatrix(width: int, height: int) returns (a: array2<bool>)
      requires 0 <= width && 0 <= height
      ensures fresh(a) && a.Length0 == width && a.Length1 == height
      ensures Mirrors(a, {})
    {
      a := new bool[width, height];
      for row := 0 to width
        invariant forall r, c :: 0 <= r < row && 0 <= c < height ==> !a[r, c]
      {
        for col := 0 to height
          invariant forall r, c :: 0 <= r < row && 0 <= c < height ==> !a[r, c]
          invariant forall c :: 0 <= c < col ==> !a[row, c]
        {
          a[row, col] := false;
        }
      }
    }

    /** Run's second loop: mines `count` distinct plates of the cleared
        matrix `a`, each drawn among the plates not mined yet. */
    static method PlaceMines(a: array2<bool>, count: int) returns (ghost placed: set<Pos>)
      requires Mirrors(a, {}) && count <= a.Length0 * a.Length1
      modifies a
      ensures Mirrors(a, placed) && InBoard(a.Length0, a.Length1, placed)
      ensures |placed| == (if count < 0 then 0 else count)
    {
      placed := {};
      var minesCounter := 0;
      while minesCounter < count
        invariant 0 <= minesCounter && (minesCounter <= count || minesCounter == 0)
        invariant Mirrors(a, placed) && InBoard(a.Length0, a.Length1, placed) && |placed| == minesCounter
        decreases count - minesCounter
      {
        FreeCellExists(a.Length0, a.Length1, placed);
        ghost var free :| InGrid(a.Length0, a.Length1, free) && free !in placed;
        assert !a[free.0, free.1];
        var row, col :| 0 <= row < a.Length0 && 0 <= col < a.Length1 && !a[row, col];
        a[row, col] := true;
        placed := placed + {(row, col)};
        minesCounter := minesCounter + 1;
      }
    }

    /** Halts the timer; stopping a stopped timer changes nothing. */
    method Stop()
      modifies this`running
      ensures !running
    {
      running := false;
    }

    /** One tick of the timer, which only a running timer delivers: the
        elapsed time goes up by one second, wrapping around from the largest
        `int` to the smallest as unchecked C# arithmetic does. */
    method Tick()
      requires running
      modifies this`TimeElapsed
      ensures old(TimeElapsed) < 0x7FFF_FFFF ==> TimeElapsed == old(TimeElapsed) + 1
      ensures old(TimeElapsed) == 0x7FFF_FFFF ==> TimeElapsed == -0x8000_0000
    {
      TimeElapsed := if TimeElapsed == 0x7FFF_FFFF then -0x8000_0000 else TimeElapsed + 1;
    }

    /** The scan of CheckFinish: is every safe plate revealed? */
    method SafePlatesRevealed() returns (allRevealed: bool)
      requires Valid()
      ensures allRevealed <==> Cells(Width, Height) - Mined <= Revealed
    {
      allRevealed := true;
      var row := 0;
      while row < Width
        invariant 0 <= row <= Width
        invariant allRevealed
        invariant forall r, c :: 0 <= r < row && 0 <= c < Height ==> mined[r, c] || revealed[r, c]
      {
        var col := 0;
        while col < Height
          invariant 0 <= col <= Height
          invariant forall c :: 0 <= c < col ==> mined[row, c] || revealed[row, c]
        {
          if !revealed[row, col] && !mined[row, col] {
            allRevealed := false;
            assert (row, col) in Cells(Width, Height) - Mined;
            break break;
          }
          col := col + 1;
        }
        row := row + 1;
      }
      if allRevealed {
        forall q | q in Cells(Width, Height) - Mined ensures q in Revealed {
          assert mined[q.0, q.1] || revealed[q.0, q.1];
        }
      }
    }

    /** Stops the timer when the game is won. */
    method CheckFinish()
      requires Valid()
      modifies this`running
      ensures running == (old(running) && !Finished())
    {
      var hasFinished := false;
      if wrongFlags == 0 && FlaggedMines() == Mines {
        hasFinished := SafePlatesRevealed();
      }
      if hasFinished {
        Stop();
      }
    }

    /** Puts a flag on the plate, or takes it off, keeping the counters in step. */
    method FlagMine(row: int, col: int) returns (r: Result<()>)
      requires Valid()
      modifies flagged, this`Flagged, this`CorrectlyFlagged, this`WronglyFlagged
      modifies this`correctFlags, this`wrongFlags, this`running
      ensures Valid()
      ensures !IsInGrid(row, col) ==>
                r.Failure? && Flagged == old(Flagged) && correctFlags == old(correctFlags) &&
                wrongFlags == old(wrongFlags) && running == old(running)
      ensures IsInGrid(row, col) ==> r.Success? && Flagged == Toggled(old(Flagged), (row, col))
      ensures IsInGrid(row, col) ==>
                correctFlags == old(correctFlags) + (if (row, col) !in Mined then 0 else if (row, col) in old(Flagged) then -1 else 1)
      ensures IsInGrid(row, col) ==>
                wrongFlags == old(wrongFlags) + (if (row, col) in Mined then 0 else if (row, col) in old(Flagged) then -1 else 1)
      ensures IsInGrid(row, col) ==> running == (old(running) && !Finished())
    {
      if !IsInGrid(row, col) {
        return Failure("Invalid MinesGrid reference call [row, column] on flag");
      }
      ToggleFlag(row, col);
      r := Success(());
    }

    /** FlagMine on a plate of the board. */
    method ToggleFlag(row: int, col: int)
      requires Valid() && IsInGrid(row, col)
      modifies flagged, this`Flagged, this`CorrectlyFlagged, this`WronglyFlagged
      modifies this`correctFlags, this`wrongFlags, this`running
      ensures Valid()
      ensures Flagged == Toggled(old(Flagged), (row, col))
      ensures correctFlags == old(correctFlags) + (if (row, col) !in Mined then 0 else if (row, col) in old(Flagged) then -1 else 1)
      ensures wrongFlags == old(wrongFlags) + (if (row, col) in Mined then 0 else if (row, col) in old(Flagged) then -1 else 1)
      ensures running == (old(running) && !Finished())
    {
      RecountFlag(row, col);
      flagged[row, col] := !flagged[row, col];
      Flagged := Toggled(Flagged, (row, col));
      CheckFinish();
    }

    /** The counting part of FlagMine: moves the plate into or out of the
        right part of the flag bookkeeping, before its flag is toggled. */
    method RecountFlag(row: int, col: int)
      requires mined != null && flagged != null && IsInGrid(row, col)
      requires mined.Length0 == Width && mined.Length1 == Height
      requires flagged.Length0 == Width && flagged.Length1 == Height
      requires Mirrors(mined, Mined) && Mirrors(flagged, Flagged)
      requires FlagBook(Flagged, CorrectlyFlagged, WronglyFlagged, Mined, correctFlags, wrongFlags)
      modifies this`correctFlags, this`wrongFlags, this`CorrectlyFlagged, this`WronglyFlagged
      ensures FlagBook(Toggled(Flagged, (row, col)), CorrectlyFlagged, WronglyFlagged, Mined, correctFlags, wrongFlags)
      ensures correctFlags == old(correctFlags) + (if (row, col) !in Mined then 0 else if (row, col) in Flagged then -1 else 1)
      ensures wrongFlags == old(wrongFlags) + (if (row, col) in Mined then 0 else if (row, col) in Flagged then -1 else 1)
    {
      var plate := (row, col);
      if !flagged[row, col] {
        if mined[row, col] {
          correctFlags := correctFlags + 1;
          CorrectlyFlagged := CorrectlyFlagged + {plate};
        } else {
          wrongFlags := wrongFlags + 1;
          WronglyFlagged := WronglyFlagged + {plate};
        }
      } else {
        if mined[row, col] {
          correctFlags := correctFlags - 1;
          CorrectlyFlagged := CorrectlyFlagged - {plate};
        } else {
          wrongFlags := wrongFlags - 1;
          WronglyFlagged := WronglyFlagged - {plate};
        }
      }
    }

    /** Flagging the same plate twice restores its flag and both counters. */
    method FlagMineTwice(row: int, col: int)
      requires Valid()
      modifies flagged, this`Flagged, this`CorrectlyFlagged, this`WronglyFlagged
      modifies this`correctFlags, this`wrongFlags, this`running
      ensures Valid() && Flagged == old(Flagged) && Mined == old(Mined) && Revealed == old(Revealed)
      ensures correctFlags == old(correctFlags) && wrongFlags == old(wrongFlags)
    {
      var first := FlagMine(row, col);
      var second := FlagMine(row, col);
      ToggleTwice(old(Flagged), (row, col));
    }

    /** A won game has its flags exactly on its mines. */
    lemma FinishedFlagsAreMines()
      requires Valid() && Finished()
      ensures Flagged == Mined
    {
      FlagsAreMines(CorrectlyFlagged, WronglyFlagged, Mined);
    }

    /** Plate.Check for the plate at (row, col): reveals it, counts the mines
        around it and, when there are none, opens every neighbour. */
    method Check(row: int, col: int) returns (counter: int)
      requires Valid() && IsInGrid(row, col)
      modifies revealed, this`Revealed, this`running
      decreases Cells(Width, Height) - Revealed, 0
      ensures Valid() && OnlyReveals()
      ensures (row, col) in old(Revealed) || (row, col) in Flagged ==>
                counter == 0 && Revealed == old(Revealed) && running == old(running)
      ensures (row, col) !in old(Revealed) && (row, col) !in Flagged ==>
                (row, col) in Revealed && counter == |MinedNeighbours(Mined, (row, col))| <= 8
      ensures OpensOnlySafe((row, col), old(Revealed), Revealed, Mined, Flagged)
      ensures ZerosExpanded(Width, Height, Mined, Flagged, old(Revealed), Revealed)
      ensures ReachedFrom((row, col), old(Revealed), Revealed, Mined)
      ensures old(running) && !running ==> Finished()
    {
      counter := 0;
      var p := (row, col);
      if !revealed[row, col] && !flagged[row, col] {
        ghost var before := Revealed;
        Uncover(row, col);
        counter := CountMines(row, col);
        if counter == 0 {
          OpenNeighbours(row, col, before);
        } else {
          assert FillPath([p], p, p, before, Revealed, Mined);
        }
      }
    }

    /** Marks the plate at (row, col) revealed, as Plate.Check does first. */
    method Uncover(row: int, col: int)
      requires Valid() && IsInGrid(row, col)
      modifies revealed, this`Revealed
      ensures Valid() && OnlyReveals() && Revealed == old(Revealed) + {(row, col)}
    {
      revealed[row, col] := true;
      Revealed := Revealed + {(row, col)};
    }

    /** The first loop of Plate.Check: the number of mined plates among the
        eight around (row, col). */
    method CountMines(row: int, col: int) returns (counter: int)
      requires Valid()
      ensures counter == |MinedNeighbours(Mined, (row, col))| <= 8
      ensures counter == 0 <==> NoMinedNeighbour(Mined, (row, col))
    {
      var p := (row, col);
      counter := 0;
      for i := 0 to 9
        invariant counter == MinesAround(Mined, p, i)
      {
        if i == 4 { continue; }
        if IsBomb(row + i / 3 - 1, col + i % 3 - 1) {
          counter := counter + 1;
        }
      }
      MinesAroundCountsNeighbours(Mined, p);
      ZeroCount(Mined, p);
    }

    /** The second loop of Plate.Check: opens the eight plates around
        (row, col), which touches no mine and has just been revealed on top
        of the plates `before`. */
    method OpenNeighbours(row: int, col: int, ghost before: set<Pos>)
      requires Valid() && IsInGrid(row, col)
      requires NoMinedNeighbour(Mined, (row, col)) && (row, col) !in Flagged
      requires (row, col) !in before && Revealed == before + {(row, col)}
      modifies revealed, this`Revealed, this`running
      decreases Cells(Width, Height) - Revealed, 4
      ensures Valid() && OnlyReveals()
      ensures forall q {:trigger Adjacent((row, col), q)} :: Adjacent((row, col), q) && InGrid(Width, Height, q) ==> q in Revealed || q in Flagged
      ensures OpensOnlySafe((row, col), before, Revealed, Mined, Flagged)
      ensures ZerosExpanded(Width, Height, Mined, Flagged, before, Revealed)
      ensures ReachedFrom((row, col), before, Revealed, Mined)
      ensures old(running) && !running ==> Finished()
    {
      var p := (row, col);
      assert FillPath([p], p, p, before, Revealed, Mined);
      for i := 0 to 9
        invariant Valid() && OnlyReveals()
        invariant before <= Revealed && p in Revealed
        invariant forall j :: 0 <= j < i && j != 4 && InGrid(Width, Height, NeighbourAt(p, j)) ==>
                    NeighbourAt(p, j) in Revealed || NeighbourAt(p, j) in Flagged
        invariant OpensOnlySafe(p, before, Revealed, Mined, Flagged)
        invariant ZerosExpanded(Width, Height, Mined, Flagged, before + {p}, Revealed)
        invariant ReachedFrom(p, before, Revealed, Mined)
        invariant old(running) && !running ==> Finished()
      {
        if i == 4 { continue; }
        OpenStep(row, col, i, before);
      }
      forall x | Adjacent(p, x) && InGrid(Width, Height, x) ensures x in Revealed || x in Flagged {
        StepsAreNeighbours(p, x, 0);
      }
      FloodDone(Width, Height, Mined, Flagged, before, p, Revealed);
    }

    /** One turn `i` of the second loop of Plate.Check around (row, col):
        opens the neighbour at step `i`, and the fill from (row, col) keeps
        its three properties. */
    method OpenStep(row: int, col: int, i: int, ghost before: set<Pos>)
      requires Valid() && IsInGrid(row, col) && 0 <= i < 9 && i != 4
      requires NoMinedNeighbour(Mined, (row, col)) && (row, col) !in Flagged
      requires (row, col) !in before && before <= Revealed && (row, col) in Revealed
      requires OpensOnlySafe((row, col), before, Revealed, Mined, Flagged)
      requires ZerosExpanded(Width, Height, Mined, Flagged, before + {(row, col)}, Revealed)
      requires ReachedFrom((row, col), before, Revealed, Mined)
      modifies revealed, this`Revealed, this`running
      decreases Cells(Width, Height) - Revealed, 3
      ensures Valid() && OnlyReveals()
      ensures InGrid(Width, Height, NeighbourAt((row, col), i)) ==>
                NeighbourAt((row, col), i) in Revealed || NeighbourAt((row, col), i) in Flagged
      ensures OpensOnlySafe((row, col), before, Revealed, Mined, Flagged)
      ensures ZerosExpanded(Width, Height, Mined, Flagged, before + {(row, col)}, Revealed)
      ensures ReachedFrom((row, col), before, Revealed, Mined)
      ensures old(running) && !running ==> Finished()
    {
      var p := (row, col);
      ghost var r1 := Revealed;
      var q := NeighbourAt(p, i);
      OpenPlate(q.0, q.1);
      StepsAreNeighbours(p, q, i);
      FloodStep(Width, Height, Mined, Flagged, before, p, q, r1, Revealed);
    }

    /** Reveals the plate at (row, col) and then checks for a win; a
        position off the board is refused. */
    method RevealPlate(row: int, col: int) returns (r: Result<int>)
      requires Valid()
      modifies revealed, this`Revealed, this`running
      decreases Cells(Width, Height) - Revealed, 1
      ensures Valid() && OnlyReveals()
      ensures !IsInGrid(row, col) ==> r.Failure? && Revealed == old(Revealed) && running == old(running)
      ensures IsInGrid(row, col) ==> r.Success? && running == (old(running) && !Finished())
      ensures IsInGrid(row, col) && ((row, col) in old(Revealed) || (row, col) in Flagged) ==>
                r.value == 0 && Revealed == old(Revealed)
      ensures IsInGrid(row, col) && (row, col) !in old(Revealed) && (row, col) !in Flagged ==>
                (row, col) in Revealed && r.value == |MinedNeighbours(Mined, (row, col))| <= 8
      ensures OpensOnlySafe((row, col), old(Revealed), Revealed, Mined, Flagged)
      ensures ZerosExpanded(Width, Height, Mined, Flagged, old(Revealed), Revealed)
      ensures ReachedFrom((row, col), old(Revealed), Revealed, Mined)
    {
      if !IsInGrid(row, col) {
        return Failure("Invalid MinesGrid reference call [row, column] on reveal");
      }
      var count := Check(row, col);
      CheckFinish();
      r := Success(count);
    }

    /** Opens the plate at (row, col) on behalf of a flood fill, as the
        window's handler of the ClickPlate event does: nothing happens off
        the board or on a plate already revealed or flagged; a mined plate
        ends the game; any other plate is revealed. */
    method OpenPlate(row: int, col: int)
      requires Valid()
      modifies revealed, this`Revealed, this`running
      decreases Cells(Width, Height) - Revealed, 2
      ensures Valid() && OnlyReveals()
      ensures !IsInGrid(row, col) || (row, col) in old(Revealed) || (row, col) in Flagged ==>
                Revealed == old(Revealed) && running == old(running)
      ensures (row, col) in Mined ==> Revealed == old(Revealed)
      ensures (row, col) in Mined && (row, col) !in old(Revealed) && (row, col) !in Flagged ==> !running
      ensures IsInGrid(row, col) && (row, col) !in Mined ==> (row, col) in Revealed || (row, col) in Flagged
      ensures OpensOnlySafe((row, col), old(Revealed), Revealed, Mined, Flagged)
      ensures ZerosExpanded(Width, Height, Mined, Flagged, old(Revealed), Revealed)
      ensures ReachedFrom((row, col), old(Revealed), Revealed, Mined)
      ensures (row, col) !in Mined && old(running) && !running ==> Finished()
    {
      if IsInGrid(row, col) && !revealed[row, col] && !IsFlagged(row, col) {
        if IsBomb(row, col) {
          Stop();
        } else {
          var r := RevealPlate(row, col);
        }
      }
    }
  }
}
