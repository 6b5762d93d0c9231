/** Warehouses: their creation with a random number of boxes, their placement
    on distinct free cells by rejection sampling, and the bookkeeping over the
    list of warehouses (the box counts, their sum, and the search by position). */
module Storage {
  import opened Random

  datatype Option<T> = None | Some(value: T)

  class Warehouse {
    var numberOfBoxesInWarehouse: int
    var positionOfWarehouse: int   // -1 until the warehouse is placed

    /** A warehouse holds between 1 and maxNumberOfBoxesInWarehouse boxes and is not placed yet. */
    constructor (maxNumberOfBoxesInWarehouse: int)
      requires maxNumberOfBoxesInWarehouse >= 1
      ensures 1 <= numberOfBoxesInWarehouse <= maxNumberOfBoxesInWarehouse
      ensures positionOfWarehouse == -1
    {
      var boxes := RandomNumberInRange(1, maxNumberOfBoxesInWarehouse);
      numberOfBoxesInWarehouse := boxes;
      positionOfWarehouse := -1;
    }

    /** placeWarehouse: draw cells from [0, numberOfCells-1] until one is neither
        occupied by a warehouse nor the exit (the last cell), and settle there.
        The random draws are the stream `draws`, read from index `from` on; the
        result `next` is the index of the first draw left unread. */
    method PlaceWarehouse(numberOfCells: int, occupied: set<int>, draws: seq<int>, from: nat) returns (next: nat)
      requires from <= |draws|
      requires forall i :: from <= i < |draws| ==> 0 <= draws[i] <= numberOfCells - 1
      requires FirstFree(draws, from, occupied, numberOfCells - 1) < |draws|
      modifies this`positionOfWarehouse
      ensures next == FirstFree(draws, from, occupied, numberOfCells - 1) + 1
      ensures positionOfWarehouse == draws[next - 1]
      ensures 0 <= positionOfWarehouse < numberOfCells - 1 && positionOfWarehouse !in occupied
    {
      var placeOfWarehouse := draws[from];
      next := from + 1;
      while placeOfWarehouse in occupied || placeOfWarehouse == numberOfCells - 1
        invariant from < next <= |draws|
        invariant placeOfWarehouse == draws[next - 1]
        invariant FirstFree(draws, next - 1, occupied, numberOfCells - 1) == FirstFree(draws, from, occupied, numberOfCells - 1)
        decreases |draws| - next
      {
        placeOfWarehouse := draws[next];
        next := next + 1;
      }
      positionOfWarehouse := placeOfWarehouse;
    }
  }

  /** Box counts that are never negative. */
  predicate NonNegative(s: seq<int>)
  {
    forall i :: 0 <= i < |s| ==> s[i] >= 0
  }

  /** The total of a list of box counts, such as numberOfAllBoxes; counts
      that are never negative have a total that is not negative either. */
  function Sum(s: seq<int>): (total: int)
    ensures NonNegative(s) ==> total >= 0
  {
    SumTo(s, |s|)
  }

  /** The total of the first n counts. */
  function SumTo(s: seq<int>, n: nat): (total: int)
    requires n <= |s|
    ensures NonNegative(s) ==> total >= 0
  {
    if n == 0 then 0 else SumTo(s, n - 1) + s[n - 1]
  }

  /** The total of the first n counts depends on those counts only. */
  lemma {:induction false} SumToPrefix(s: seq<int>, t: seq<int>, n: nat)
    requires n <= |s| && n <= |t|
    requires forall k :: 0 <= k < n ==> s[k] == t[k]
    ensures SumTo(s, n) == SumTo(t, n)
  {
    if n > 0 {
      SumToPrefix(s, t, n - 1);
    }
  }

  /** Appending a count adds it to the total. */
  lemma SumAppend(s: seq<int>, v: int)
    ensures Sum(s + [v]) == Sum(s) + v
  {
    SumToPrefix(s + [v], s, |s|);
  }

  /** Changing the count at i changes the total of the first n counts by the
      difference when i is one of them. */
  lemma {:induction false} SumToUpdate(s: seq<int>, n: nat, i: int, v: int)
    requires n <= |s| && 0 <= i < |s|
    ensures SumTo(s[i := v], n) == SumTo(s, n) - (if i < n then s[i] - v else 0)
  {
    if n > 0 {
      SumToUpdate(s, n - 1, i, v);
    }
  }

  /** Changing one count changes the sum by the difference. */
  lemma SumUpdate(s: seq<int>, i: int, v: int)
    requires 0 <= i < |s|
    ensures Sum(s[i := v]) == Sum(s) - s[i] + v
  {
    SumToUpdate(s, |s|, i, v);
  }

  /** The first n of non-negative counts have a non-negative total, which is
      zero exactly when each of them is. */
  lemma {:induction false} SumToOfNonNegative(s: seq<int>, n: nat)
    requires n <= |s|
    requires NonNegative(s)
    ensures SumTo(s, n) >= 0
    ensures SumTo(s, n) == 0 <==> forall i :: 0 <= i < n ==> s[i] == 0
  {
    if n > 0 {
      SumToOfNonNegative(s, n - 1);
    }
  }

  /** A sum of non-negative counts is non-negative, and it is zero exactly when every count is. */
  lemma SumOfNonNegative(s: seq<int>)
    requires NonNegative(s)
    ensures Sum(s) >= 0
    ensures Sum(s) == 0 <==> forall i :: 0 <= i < |s| ==> s[i] == 0
  {
    SumToOfNonNegative(s, |s|);
  }

  /** Array.find over the warehouses by position: the index of the first
      warehouse standing on `position`, or None when there is none. */
  function FindAt(warehouses: seq<Warehouse>, position: int): (r: Option<nat>)
    reads warehouses`positionOfWarehouse
    ensures r.None? <==> forall i :: 0 <= i < |warehouses| ==> warehouses[i].positionOfWarehouse != position
    ensures r.Some? ==> r.value < |warehouses| && warehouses[r.value].positionOfWarehouse == position
    ensures r.Some? ==> forall j :: 0 <= j < r.value ==> warehouses[j].positionOfWarehouse != position
  {
    FindFrom(warehouses, position, 0)
  }

  /** The search of FindAt from index `from` on. */
  function FindFrom(warehouses: seq<Warehouse>, position: int, from: nat): (r: Option<nat>)
    reads warehouses`positionOfWarehouse
    ensures r.None? <==> forall i :: from <= i < |warehouses| ==> warehouses[i].positionOfWarehouse != position
    ensures r.Some? ==> from <= r.value < |warehouses| && warehouses[r.value].positionOfWarehouse == position
    ensures r.Some? ==> forall j :: from <= j < r.value ==> warehouses[j].positionOfWarehouse != position
    decreases |warehouses| - from
  {
    if from >= |warehouses| then None
    else if warehouses[from].positionOfWarehouse == position then Some(from)
    else FindFrom(warehouses, position, from + 1)
  }

  /** Every warehouse stands on a grid cell (not -1, not the exit) and no two share a cell. */
  ghost predicate Placed(warehouses: seq<Warehouse>, exit: int)
    reads warehouses`positionOfWarehouse
  {
    (forall i :: 0 <= i < |warehouses| ==> 0 <= warehouses[i].positionOfWarehouse < exit) &&
    (forall i, j :: 0 <= i < j < |warehouses| ==>
      warehouses[i].positionOfWarehouse != warehouses[j].positionOfWarehouse)
  }

  /** The index of the first draw from index `from` on that rejection sampling
      accepts, one that is neither occupied nor the exit; |draws| when there is none. */
  function FirstFree(draws: seq<int>, from: nat, occupied: set<int>, exit: int): (k: nat)
    requires from <= |draws|
    ensures from <= k <= |draws|
    ensures k < |draws| ==> draws[k] !in occupied && draws[k] != exit
    decreases |draws| - from
  {
    if from == |draws| then from
    else if draws[from] !in occupied && draws[from] != exit then from
    else FirstFree(draws, from + 1, occupied, exit)
  }

  /** FirstFree finds the FIRST accepted draw: every draw it skips is occupied or the exit. */
  lemma {:induction false} FirstFreeSkipsOnlyRejected(draws: seq<int>, from: nat, occupied: set<int>, exit: int)
    requires from <= |draws|
    ensures forall j :: from <= j < FirstFree(draws, from, occupied, exit) ==> draws[j] in occupied || draws[j] == exit
    decreases |draws| - from
  {
    if from < |draws| && (draws[from] in occupied || draws[from] == exit) {
      FirstFreeSkipsOnlyRejected(draws, from + 1, occupied, exit);
    }
  }

  /** The state of placeWarehouses after some warehouses have been placed: the
      index of the next unread draw, the occupied cells, and the cells taken, in order. */
  datatype Progress = Progress(cursor: nat, occupied: set<int>, placed: seq<int>)

  /** Where the first `count` warehouses are placed when the random draws are
      `draws`; None when the draws run out before they are all placed. */
  function Run(draws: seq<int>, count: nat, exit: int): (r: Option<Progress>)
    ensures r.Some? ==> r.value.cursor <= |draws| && |r.value.placed| == count
  {
    if count == 0 then Some(Progress(0, {}, []))
    else match Run(draws, count - 1, exit)
      case None => None
      case Some(Progress(cursor, occupied, placed)) =>
        var k := FirstFree(draws, cursor, occupied, exit);
        if k < |draws| then Some(Progress(k + 1, occupied + {draws[k]}, placed + [draws[k]])) else None
  }

  /** Draws that suffice for `count` warehouses suffice for fewer. */
  lemma {:induction false} RunPrefix(draws: seq<int>, k: nat, count: nat, exit: int)
    requires k <= count && Run(draws, count, exit).Some?
    ensures Run(draws, k, exit).Some?
    decreases count
  {
    if k < count {
      RunPrefix(draws, k, count - 1, exit);
    }
  }

  /** When the draws suffice for `count` warehouses, warehouse k < count finds an
      accepted draw after the k before it, and that draw is its cell. */
  lemma RunNext(draws: seq<int>, k: nat, count: nat, exit: int)
    requires k < count && Run(draws, count, exit).Some?
    ensures Run(draws, k, exit).Some?
    ensures var s := Run(draws, k, exit).value;
      var f := FirstFree(draws, s.cursor, s.occupied, exit);
      f < |draws| &&
      Run(draws, k + 1, exit) == Some(Progress(f + 1, s.occupied + {draws[f]}, s.placed + [draws[f]]))
  {
    RunPrefix(draws, k + 1, count, exit);
  }

  /** Rejection sampling places every warehouse on a grid cell, on pairwise
      distinct cells, and the occupied cells are exactly the cells taken. */
  lemma {:induction false} RunSound(draws: seq<int>, count: nat, exit: int)
    requires forall i :: 0 <= i < |draws| ==> 0 <= draws[i] <= exit
    requires Run(draws, count, exit).Some?
    ensures var p := Run(draws, count, exit).value.placed;
      (forall i :: 0 <= i < |p| ==> 0 <= p[i] < exit) &&
      (forall i, j :: 0 <= i < j < |p| ==> p[i] != p[j]) &&
      (forall x :: x in Run(draws, count, exit).value.occupied <==> x in p)
    decreases count
  {
    if count > 0 {
      RunSound(draws, count - 1, exit);
      var before := Run(draws, count - 1, exit).value;
      var k := FirstFree(draws, before.cursor, before.occupied, exit);
      var p := Run(draws, count, exit).value.placed;
      assert p == before.placed + [draws[k]];
      forall i | 0 <= i < |p| - 1 ensures p[i] == before.placed[i] && p[i] != draws[k] {
        assert before.placed[i] in before.occupied;
      }
      assert p[|p| - 1] == draws[k];
    }
  }

  /** Draws that never hit the exit or each other are all accepted, in order. */
  lemma {:induction false} CollisionFreeDrawsPlaced(draws: seq<int>, count: nat, exit: int)
    requires count <= |draws|
    requires forall i :: 0 <= i < |draws| ==> draws[i] != exit
    requires forall i, j :: 0 <= i < j < |draws| ==> draws[i] != draws[j]
    ensures Run(draws, count, exit).Some?
    ensures Run(draws, count, exit).value.cursor == count
    ensures Run(draws, count, exit).value.placed == draws[..count]
    ensures forall x :: x in Run(draws, count, exit).value.occupied <==> x in draws[..count]
    decreases count
  {
    if count > 0 {
      CollisionFreeDrawsPlaced(draws, count - 1, exit);
      var before := Run(draws, count - 1, exit).value;
      var prefix := draws[..count - 1];
      forall i | 0 <= i < |prefix| ensures prefix[i] != draws[count - 1] {
        assert prefix[i] == draws[i];
      }
      assert FirstFree(draws, count - 1, before.occupied, exit) == count - 1;
      assert draws[..count] == draws[..count - 1] + [draws[count - 1]];
    }
  }

  /** A sequence without repetitions drawn from a finite set is no longer than the set. */
  lemma {:induction false} DistinctWithin(s: seq<int>, cells: set<int>)
    requires forall i :: 0 <= i < |s| ==> s[i] in cells
    requires forall i, j :: 0 <= i < j < |s| ==> s[i] != s[j]
    ensures |s| <= |cells|
  {
    if s != [] {
      var last := |s| - 1;
      var x := s[last];
      var prefix := s[..last];
      forall i | 0 <= i < |prefix| ensures prefix[i] in cells - {x} {
        assert prefix[i] == s[i];
      }
      forall i, j | 0 <= i < j < |prefix| ensures prefix[i] != prefix[j] {
        assert prefix[i] == s[i] && prefix[j] == s[j];
      }
      DistinctWithin(prefix, cells - {x});
      assert (cells - {x}) + {x} == cells;
    }
  }

  /** The cells [0, bound), of which there are `bound`. */
  function Cells(bound: nat): (cells: set<int>)
    ensures |cells| == bound
    ensures forall x :: x in cells <==> 0 <= x < bound
  {
    if bound == 0 then {} else Cells(bound - 1) + {bound - 1}
  }

  /** Pigeonhole: pairwise distinct cells in [0, bound) number at most `bound`. */
  lemma DistinctWithinBound(s: seq<int>, bound: nat)
    requires forall i :: 0 <= i < |s| ==> 0 <= s[i] < bound
    requires forall i, j :: 0 <= i < j < |s| ==> s[i] != s[j]
    ensures |s| <= bound
  {
    DistinctWithin(s, Cells(bound));
  }

  /** createWarehouses: numberOfWarehouses new, distinct, unplaced warehouses,
      and the total number of boxes they hold. */
  method CreateWarehouses(numberOfWarehouses: nat, maxNumberOfBoxesInWarehouse: int)
    returns (warehouses: seq<Warehouse>, numberOfAllBoxes: int, ghost counts: seq<int>)
    requires numberOfWarehouses > 0 ==> maxNumberOfBoxesInWarehouse >= 1
    ensures |warehouses| == numberOfWarehouses && |counts| == numberOfWarehouses
    ensures forall i :: 0 <= i < |warehouses| ==> fresh(warehouses[i])
    ensures forall i, j :: 0 <= i < j < |warehouses| ==> warehouses[i] != warehouses[j]
    ensures forall i :: 0 <= i < |warehouses| ==>
      warehouses[i].numberOfBoxesInWarehouse == counts[i] &&
      1 <= counts[i] <= maxNumberOfBoxesInWarehouse &&
      warehouses[i].positionOfWarehouse == -1
    ensures numberOfAllBoxes == Sum(counts)
  {
    warehouses, numberOfAllBoxes, counts := [], 0, [];
    var i := 0;
    while i < numberOfWarehouses
      invariant 0 <= i <= numberOfWarehouses && |warehouses| == i && |counts| == i
      invariant forall k :: 0 <= k < i ==> fresh(warehouses[k])
      invariant forall k, l :: 0 <= k < l < i ==> warehouses[k] != warehouses[l]
      invariant forall k :: 0 <= k < i ==>
        warehouses[k].numberOfBoxesInWarehouse == counts[k] &&
        1 <= counts[k] <= maxNumberOfBoxesInWarehouse &&
        warehouses[k].positionOfWarehouse == -1
      invariant numberOfAllBoxes == Sum(counts)
    {
      var warehouse := new Warehouse(maxNumberOfBoxesInWarehouse);
      ghost var before := counts;
      warehouses := warehouses + [warehouse];
      counts := counts + [warehouse.numberOfBoxesInWarehouse];
      SumAppend(before, warehouse.numberOfBoxesInWarehouse);
      numberOfAllBoxes := numberOfAllBoxes + warehouse.numberOfBoxesInWarehouse;
      i := i + 1;
    }
  }

  /** placeWarehouses: place the warehouses one after the other, each on the
      first accepted draw after those the previous warehouses used, starting
      from a grid on which no cell is occupied. */
  method PlaceWarehouses(warehouses: seq<Warehouse>, numberOfCells: int, draws: seq<int>)
    requires forall i, j :: 0 <= i < j < |warehouses| ==> warehouses[i] != warehouses[j]
    requires forall i :: 0 <= i < |draws| ==> 0 <= draws[i] <= numberOfCells - 1
    requires Run(draws, |warehouses|, numberOfCells - 1).Some?
    modifies warehouses`positionOfWarehouse
    ensures forall i :: 0 <= i < |warehouses| ==>
      warehouses[i].positionOfWarehouse == Run(draws, |warehouses|, numberOfCells - 1).value.placed[i]
    ensures Placed(warehouses, numberOfCells - 1)
  {
    var exit := numberOfCells - 1;
    var occupied: set<int> := {};
    var cursor := 0;
    ghost var placed: seq<int> := [];
    for k := 0 to |warehouses|
      invariant Run(draws, k, exit) == Some(Progress(cursor, occupied, placed))
      invariant forall i :: 0 <= i < k ==> warehouses[i].positionOfWarehouse == placed[i]
    {
      RunNext(draws, k, |warehouses|, exit);
      assert forall i :: 0 <= i < k ==> warehouses[i] != warehouses[k];
      cursor := warehouses[k].PlaceWarehouse(numberOfCells, occupied, draws, cursor);
      occupied := occupied + {warehouses[k].positionOfWarehouse};
      placed := placed + [warehouses[k].positionOfWarehouse];
    }
    RunSound(draws, |warehouses|, exit);
  }
}
