/** The eight neighbours of a plate, the mine count that Plate.Check
    computes over them, and the properties that describe one flood fill. */
module Neighbourhood {
  import opened Board

  /** The position visited at step `i` of the 3-by-3 scan around `p`:
      row offset `i / 3 - 1`, column offset `i % 3 - 1`; step 4 is `p` itself. */
  function NeighbourAt(p: Pos, i: int): Pos {
    (p.0 + i / 3 - 1, p.1 + i % 3 - 1)
  }

  /** `q` is one of the eight plates touching `p` (by side or by corner). */
  predicate Adjacent(p: Pos, q: Pos) {
    p != q && -1 <= q.0 - p.0 <= 1 && -1 <= q.1 - p.1 <= 1
  }

  /** The step of the scan around `p` that visits `q`. */
  function StepOf(p: Pos, q: Pos): int {
    (q.0 - p.0 + 1) * 3 + (q.1 - p.1 + 1)
  }

  /** The eight steps other than 4 visit exactly the plates adjacent to `p`. */
  lemma {:induction false} StepsAreNeighbours(p: Pos, q: Pos, i: int)
    requires 0 <= i < 9
    ensures q == NeighbourAt(p, i) ==> (Adjacent(p, q) <==> i != 4)
    ensures Adjacent(p, q) ==> 0 <= StepOf(p, q) < 9 && StepOf(p, q) != 4 && NeighbourAt(p, StepOf(p, q)) == q
  {
  }

  /** The number of steps `i < k`, other than 4, whose plate is in `mined`:
      the counter of Plate.Check after `k` turns of its first loop. */
  function MinesAround(mined: set<Pos>, p: Pos, k: int): (n: nat)
    requires 0 <= k <= 9
    ensures n <= (if k <= 4 then k else k - 1)
    ensures n == 0 <==> forall i :: 0 <= i < k && i != 4 ==> NeighbourAt(p, i) !in mined
  {
    if k == 0 then 0
    else MinesAround(mined, p, k - 1) + (if k - 1 != 4 && NeighbourAt(p, k - 1) in mined then 1 else 0)
  }

  /** The mined plates adjacent to `p`. */
  function MinedNeighbours(mined: set<Pos>, p: Pos): set<Pos> {
    set q | q in mined && Adjacent(p, q)
  }

  /** `p` touches no mined plate. */
  ghost predicate NoMinedNeighbour(mined: set<Pos>, p: Pos) {
    forall q {:trigger Adjacent(p, q)} :: q in mined ==> !Adjacent(p, q)
  }

  /** The plates that the steps `i < k` (other than 4) find in `mined`. */
  function FoundBefore(mined: set<Pos>, p: Pos, k: int): set<Pos> {
    set i | 0 <= i < k && i != 4 && NeighbourAt(p, i) in mined :: NeighbourAt(p, i)
  }

  lemma {:induction false} FoundBeforeCount(mined: set<Pos>, p: Pos, k: int)
    requires 0 <= k <= 9
    ensures |FoundBefore(mined, p, k)| == MinesAround(mined, p, k)
  {
    if k > 0 {
      FoundBeforeCount(mined, p, k - 1);
      var q := NeighbourAt(p, k - 1);
      if k - 1 != 4 && q in mined {
        assert q !in FoundBefore(mined, p, k - 1) by {
          forall i | 0 <= i < k - 1 && i != 4 ensures NeighbourAt(p, i) != q {
            StepsAreNeighbours(p, NeighbourAt(p, i), i);
          }
        }
        assert FoundBefore(mined, p, k) == FoundBefore(mined, p, k - 1) + {q};
      } else {
        assert FoundBefore(mined, p, k) == FoundBefore(mined, p, k - 1);
      }
    }
  }

  /** The count of the 3-by-3 scan is the number of mined plates adjacent
      to `p`; it is at most 8. */
  lemma MinesAroundCountsNeighbours(mined: set<Pos>, p: Pos)
    ensures MinesAround(mined, p, 9) == |MinedNeighbours(mined, p)| <= 8
  {
    FoundBeforeCount(mined, p, 9);
    forall q | q in mined && Adjacent(p, q) ensures q in FoundBefore(mined, p, 9) {
      StepsAreNeighbours(p, q, StepOf(p, q));
    }
    forall i | 0 <= i < 9 && i != 4 && NeighbourAt(p, i) in mined
      ensures NeighbourAt(p, i) in MinedNeighbours(mined, p)
    {
      StepsAreNeighbours(p, NeighbourAt(p, i), i);
    }
    assert FoundBefore(mined, p, 9) == MinedNeighbours(mined, p);
  }

  /** A zero count means that no adjacent plate is mined, and conversely. */
  lemma ZeroCount(mined: set<Pos>, p: Pos)
    ensures MinesAround(mined, p, 9) == 0 <==> NoMinedNeighbour(mined, p)
  {
    forall q | q in mined && Adjacent(p, q) ensures MinesAround(mined, p, 9) != 0 {
      StepsAreNeighbours(p, q, StepOf(p, q));
    }
    forall i | 0 <= i < 9 && i != 4 && NeighbourAt(p, i) in mined
      ensures !NoMinedNeighbour(mined, p)
    {
      StepsAreNeighbours(p, NeighbourAt(p, i), i);
    }
  }

  /** No plate revealed on top of `before` is flagged, and none but `start`
      is mined. */
  ghost predicate OpensOnlySafe(start: Pos, before: set<Pos>, revealed: set<Pos>, mined: set<Pos>, flagged: set<Pos>) {
    forall q :: q in revealed && q !in before ==> q !in flagged && (q == start || q !in mined)
  }

  /** Every plate on the board adjacent to a plate revealed on top of
      `before` that touches no mine is revealed or flagged. */
  ghost predicate ZerosExpanded(width: int, height: int, mined: set<Pos>, flagged: set<Pos>,
                                before: set<Pos>, revealed: set<Pos>)
  {
    forall z, q {:trigger Adjacent(z, q)} ::
      z in revealed && z !in before && NoMinedNeighbour(mined, z) && Adjacent(z, q) && InGrid(width, height, q) ==>
        q in revealed || q in flagged
  }

  /** `path` leads from `start` to `q`, each plate adjacent to the next,
      and every plate on it before `q` was revealed on top of `before` and
      touches no mine. */
  ghost predicate FillPath(path: seq<Pos>, start: Pos, q: Pos, before: set<Pos>, revealed: set<Pos>, mined: set<Pos>) {
    |path| > 0 && path[0] == start && path[|path| - 1] == q &&
    forall i :: 0 <= i < |path| - 1 ==>
      path[i] in revealed && path[i] !in before && NoMinedNeighbour(mined, path[i]) && Adjacent(path[i], path[i + 1])
  }

  /** Every plate revealed on top of `before` is reached from `start`
      through revealed zero-count plates: the fill spreads only through
      plates that touch no mine, and never past a plate it left closed. */
  ghost predicate ReachedFrom(start: Pos, before: set<Pos>, revealed: set<Pos>, mined: set<Pos>) {
    forall q :: q in revealed && q !in before ==> exists path :: FillPath(path, start, q, before, revealed, mined)
  }

  /** One flood step: `p` touches no mine and its fill has revealed `r1`
      on top of `before`; opening the neighbour `q` then reveals `r2` on top
      of `r1`, with the three properties of its own fill. The fill from `p`
      keeps its three properties over everything revealed so far. */
  lemma FloodStep(width: int, height: int, mined: set<Pos>, flagged: set<Pos>,
                  before: set<Pos>, p: Pos, q: Pos, r1: set<Pos>, r2: set<Pos>)
    requires NoMinedNeighbour(mined, p) && Adjacent(p, q) && p !in before
    requires before <= r1 <= r2 && p in r1
    requires OpensOnlySafe(p, before, r1, mined, flagged) && OpensOnlySafe(q, r1, r2, mined, flagged)
    requires ZerosExpanded(width, height, mined, flagged, before + {p}, r1)
    requires ZerosExpanded(width, height, mined, flagged, r1, r2)
    requires ReachedFrom(p, before, r1, mined) && ReachedFrom(q, r1, r2, mined)
    ensures OpensOnlySafe(p, before, r2, mined, flagged)
    ensures ZerosExpanded(width, height, mined, flagged, before + {p}, r2)
    ensures ReachedFrom(p, before, r2, mined)
  {
    forall x | x in r2 && x !in before
      ensures exists path :: FillPath(path, p, x, before, r2, mined)
    {
      if x in r1 {
        var path :| FillPath(path, p, x, before, r1, mined);
        assert FillPath(path, p, x, before, r2, mined);
      } else {
        var path :| FillPath(path, q, x, r1, r2, mined);
        assert FillPath([p] + path, p, x, before, r2, mined);
      }
    }
  }

  /** A fill cannot jump over a closed column: when no plate of column `c`
      is revealed on top of `before` and the fill starts left of `c`, every
      plate it reveals lies left of `c`. */
  lemma FillStopsAtClosedColumn(start: Pos, before: set<Pos>, revealed: set<Pos>, mined: set<Pos>, c: int)
    requires ReachedFrom(start, before, revealed, mined) && start.1 < c
    requires forall q :: q in revealed && q !in before ==> q.1 != c
    ensures forall q :: q in revealed && q !in before ==> q.1 < c
  {
    forall q | q in revealed && q !in before ensures q.1 < c {
      var path :| FillPath(path, start, q, before, revealed, mined);
      PathLeftOf(path, start, q, before, revealed, mined, c, |path| - 1);
    }
  }

  /** The first `k + 1` plates of such a path lie left of `c`. */
  lemma {:induction false} PathLeftOf(path: seq<Pos>, start: Pos, q: Pos, before: set<Pos>, revealed: set<Pos>,
                                      mined: set<Pos>, c: int, k: int)
    requires FillPath(path, start, q, before, revealed, mined) && start.1 < c
    requires forall x :: x in revealed && x !in before ==> x.1 != c
    requires q in revealed && q !in before
    requires 0 <= k < |path|
    ensures path[k].1 < c
  {
    if k > 0 {
      PathLeftOf(path, start, q, before, revealed, mined, c, k - 1);
      assert Adjacent(path[k - 1], path[k]);
      assert path[k] in revealed && path[k] !in before;
    }
  }

  /** When every board neighbour of the zero-count plate `p` is revealed or
      flagged, the fill from `p` has expanded `p` as well. */
  lemma FloodDone(width: int, height: int, mined: set<Pos>, flagged: set<Pos>,
                  before: set<Pos>, p: Pos, r: set<Pos>)
    requires ZerosExpanded(width, height, mined, flagged, before + {p}, r)
    requires forall q {:trigger Adjacent(p, q)} :: Adjacent(p, q) && InGrid(width, height, q) ==> q in r || q in flagged
    ensures ZerosExpanded(width, height, mined, flagged, before, r)
  {
  }
}
