/** The game: its configuration check, its set-up, and the operations the
    arrow keys, the space bar and a drag onto the exit trigger. */
module Engine {
  import opened Board
  import opened Storage
  import opened Player
  import opened Notices

  /** The message validateValues gives for a grid with fewer cells than warehouses. */
  const TooManyWarehouses: string := "Количество складов больше чем размерность поля"

  /** validateValues: a configuration is accepted exactly when the grid has at
      least as many cells as there are warehouses; a rejection carries the message. */
  function ValidateValues(numberOfRows: int, numberOfColumns: int, numberOfWarehouses: int): (r: (bool, string))
    ensures r.0 <==> numberOfRows * numberOfColumns >= numberOfWarehouses
    ensures r.1 == if r.0 then "" else TooManyWarehouses
  {
    if numberOfRows * numberOfColumns >= numberOfWarehouses then (true, "")
    else (false, TooManyWarehouses)
  }

  /** The draws 0, 1, .., numberOfWarehouses-1, one new cell each. */
  function DistinctDraws(numberOfWarehouses: nat): (draws: seq<int>)
    ensures |draws| == numberOfWarehouses
    ensures forall i :: 0 <= i < numberOfWarehouses ==> draws[i] == i
  {
    seq(numberOfWarehouses, i => i)
  }

  /** Every configuration validateValues accepts can be set up: some draws
      place all its warehouses. */
  lemma ValidatedConfigurationCanBePlaced(numberOfRows: int, numberOfColumns: int, numberOfWarehouses: nat)
    requires ValidateValues(numberOfRows, numberOfColumns, numberOfWarehouses).0
    ensures var draws := DistinctDraws(numberOfWarehouses);
      (forall i :: 0 <= i < |draws| ==> 0 <= draws[i] <= Exit(numberOfColumns, numberOfRows)) &&
      Run(draws, numberOfWarehouses, Exit(numberOfColumns, numberOfRows)).Some?
  {
    var draws := DistinctDraws(numberOfWarehouses);
    CollisionFreeDrawsPlaced(draws, numberOfWarehouses, Exit(numberOfColumns, numberOfRows));
  }

  /** Only configurations validateValues accepts can be set up: when some draws
      place every warehouse, the grid has at least as many cells as warehouses. */
  lemma PlacedConfigurationIsValid(numberOfRows: int, numberOfColumns: int, numberOfWarehouses: nat, draws: seq<int>)
    requires numberOfRows >= 1 && numberOfColumns >= 1
    requires forall i :: 0 <= i < |draws| ==> 0 <= draws[i] <= Exit(numberOfColumns, numberOfRows)
    requires Run(draws, numberOfWarehouses, Exit(numberOfColumns, numberOfRows)).Some?
    ensures ValidateValues(numberOfRows, numberOfColumns, numberOfWarehouses).0
  {
    var exit := Exit(numberOfColumns, numberOfRows);
    MulAtLeast(numberOfColumns, numberOfRows);
    RunSound(draws, numberOfWarehouses, exit);
    var placed := Run(draws, numberOfWarehouses, exit).value.placed;
    DistinctWithinBound(placed, exit);
  }

  /** A warehouse was found and it has a box to give. */
  predicate Stocked(found: Option<nat>, stock: seq<int>) {
    found.Some? && found.value < |stock| && stock[found.value] > 0
  }

  /** The warehouse part of the Game constructor: createWarehouses followed by
      placeWarehouses on the grid plus its exit cell, whose index is `exit`.
      `stock` lists the box counts the warehouses are created with. */
  method SetUpWarehouses(numberOfWarehouses: nat, maxNumberOfBoxesInWarehouse: int, exit: int, draws: seq<int>)
    returns (warehouses: seq<Warehouse>, numberOfAllBoxes: int, ghost stock: seq<int>)
    requires numberOfWarehouses > 0 ==> maxNumberOfBoxesInWarehouse >= 1
    requires forall i :: 0 <= i < |draws| ==> 0 <= draws[i] <= exit
    requires Run(draws, numberOfWarehouses, exit).Some?
    ensures |warehouses| == numberOfWarehouses && |stock| == numberOfWarehouses
    ensures forall i :: 0 <= i < |warehouses| ==> fresh(warehouses[i])
    ensures forall i, j :: 0 <= i < j < |warehouses| ==> warehouses[i] != warehouses[j]
    ensures Placed(warehouses, exit)
    ensures forall i :: 0 <= i < |warehouses| ==>
      warehouses[i].positionOfWarehouse == Run(draws, numberOfWarehouses, exit).value.placed[i]
    ensures forall i :: 0 <= i < |warehouses| ==>
      warehouses[i].numberOfBoxesInWarehouse == stock[i] && 1 <= stock[i] <= maxNumberOfBoxesInWarehouse
    ensures numberOfAllBoxes == Sum(stock)
  {
    warehouses, numberOfAllBoxes, stock := CreateWarehouses(numberOfWarehouses, maxNumberOfBoxesInWarehouse);
    PlaceWarehouses(warehouses, exit + 1, draws);
    assert exit + 1 - 1 == exit;
  }

  class Game {
    const numberOfRows: int
    const numberOfColumns: int
    const numberOfWarehouses: nat
    const maxNumberOfBoxesInWarehouse: int
    const maxNumberOfBoxesInCharacter: int
    const warehouses: seq<Warehouse>
    const numberOfAllBoxes: int
    const character: Character
    /** The box counts of the warehouses, in order. */
    ghost var stock: seq<int>

    /** The invariant of a game in play: the warehouses stand on distinct grid
        cells, every box is either in a warehouse or counted as moved, the
        character carries between 0 and its maximum, and it stands on a grid
        cell or on the exit. */
    ghost predicate Valid()
      reads this, warehouses, character
    {
      Layout() && Conserved() && Hands()
    }

    /** The grid and the warehouses on it. */
    ghost predicate Layout()
      reads warehouses`positionOfWarehouse
    {
      numberOfRows >= 1 && numberOfColumns >= 1 &&
      |warehouses| == numberOfWarehouses &&
      (forall i, j :: 0 <= i < j < |warehouses| ==> warehouses[i] != warehouses[j]) &&
      Placed(warehouses, Exit(numberOfColumns, numberOfRows))
    }

    /** Conservation of boxes: each box is in a warehouse or counted as moved. */
    ghost predicate Conserved()
      reads this`stock, warehouses`numberOfBoxesInWarehouse, character`numberOfMovedBoxes
    {
      |stock| == |warehouses| &&
      (forall i :: 0 <= i < |warehouses| ==> warehouses[i].numberOfBoxesInWarehouse == stock[i] >= 0) &&
      character.numberOfMovedBoxes >= 0 &&
      Sum(stock) + character.numberOfMovedBoxes == numberOfAllBoxes
    }

    /** The character: its load within its capacity, its place among the states. */
    ghost predicate Hands()
      reads character`currentNumberOfBoxes, character`positionOnGrid
    {
      character.maxNumberOfBoxes == maxNumberOfBoxesInCharacter &&
      0 <= character.currentNumberOfBoxes <= maxNumberOfBoxesInCharacter &&
      0 <= character.positionOnGrid <= Exit(numberOfColumns, numberOfRows)
    }

    /** The Game constructor: create the warehouses, place them with the draws
        `draws` on the grid plus its exit, and put an empty-handed character on
        the exit. */
    constructor (numberOfRows: int, numberOfColumns: int, numberOfWarehouses: nat,
                 maxNumberOfBoxesInWarehouse: int, maxNumberOfBoxesInCharacter: int, draws: seq<int>)
      requires numberOfRows >= 1 && numberOfColumns >= 1
      requires numberOfWarehouses > 0 ==> maxNumberOfBoxesInWarehouse >= 1
      requires maxNumberOfBoxesInCharacter >= 0
      requires forall i :: 0 <= i < |draws| ==> 0 <= draws[i] <= Exit(numberOfColumns, numberOfRows)
      requires Run(draws, numberOfWarehouses, Exit(numberOfColumns, numberOfRows)).Some?
      ensures Valid()
      ensures this.numberOfRows == numberOfRows && this.numberOfColumns == numberOfColumns
      ensures this.numberOfWarehouses == numberOfWarehouses
      ensures this.maxNumberOfBoxesInWarehouse == maxNumberOfBoxesInWarehouse
      ensures this.maxNumberOfBoxesInCharacter == maxNumberOfBoxesInCharacter
      ensures forall i :: 0 <= i < |warehouses| ==> 1 <= stock[i] <= maxNumberOfBoxesInWarehouse
      ensures forall i :: 0 <= i < |warehouses| ==>
        warehouses[i].positionOfWarehouse == Run(draws, numberOfWarehouses, Exit(numberOfColumns, numberOfRows)).value.placed[i]
      ensures numberOfAllBoxes == Sum(stock)
      ensures character.positionOnGrid == Exit(numberOfColumns, numberOfRows)
      ensures character.currentNumberOfBoxes == 0 && character.numberOfMovedBoxes == 0
      ensures fresh(character) && forall i :: 0 <= i < |warehouses| ==> fresh(warehouses[i])
    {
      this.numberOfRows := numberOfRows;
      this.numberOfColumns := numberOfColumns;
      this.numberOfWarehouses := numberOfWarehouses;
      this.maxNumberOfBoxesInWarehouse := maxNumberOfBoxesInWarehouse;
      this.maxNumberOfBoxesInCharacter := maxNumberOfBoxesInCharacter;
      var exit := numberOfColumns * numberOfRows;
      var created, total, counts := SetUpWarehouses(numberOfWarehouses, maxNumberOfBoxesInWarehouse, exit, draws);
      stock := counts;
      warehouses := created;
      numberOfAllBoxes := total;
      character := new Character(maxNumberOfBoxesInCharacter, exit);
    }

    /** moveLeft */
    method MoveLeft()
      requires Valid()
      modifies character`positionOnGrid
      ensures Valid()
      ensures character.positionOnGrid == Move(Left, old(character.positionOnGrid), numberOfColumns, numberOfRows)
    {
      character.MoveLeft(numberOfColumns, numberOfRows);
    }

    /** moveUp */
    method MoveUp()
      requires Valid()
      modifies character`positionOnGrid
      ensures Valid()
      ensures character.positionOnGrid == Move(Up, old(character.positionOnGrid), numberOfColumns, numberOfRows)
    {
      character.MoveUp(numberOfColumns, numberOfRows);
    }

    /** moveRight */
    method MoveRight()
      requires Valid()
      modifies character`positionOnGrid
      ensures Valid()
      ensures character.positionOnGrid == Move(Right, old(character.positionOnGrid), numberOfColumns, numberOfRows)
    {
      character.MoveRight(numberOfColumns, numberOfRows);
    }

    /** moveDown: the move, and on the exit the character puts down what it
        carries; the game is won when every box has been moved. */
    method MoveDown() returns (notice: Notice)
      requires Valid()
      modifies character`positionOnGrid, character`currentNumberOfBoxes
      ensures character.positionOnGrid == Move(Down, old(character.positionOnGrid), numberOfColumns, numberOfRows)
      ensures character.currentNumberOfBoxes ==
        if character.positionOnGrid == Exit(numberOfColumns, numberOfRows) then 0 else old(character.currentNumberOfBoxes)
      ensures notice ==
        if character.positionOnGrid == Exit(numberOfColumns, numberOfRows) &&
           character.numberOfMovedBoxes == numberOfAllBoxes
        then AllBoxesMoved else Silent
      ensures Valid()
    {
      character.MoveDown(numberOfColumns, numberOfRows);
      notice := Silent;
      if character.positionOnGrid == numberOfColumns * numberOfRows {
        character.currentNumberOfBoxes := 0;
        if character.numberOfMovedBoxes == numberOfAllBoxes {
          notice := AllBoxesMoved;
        }
      }
    }

    /** takeBox: the character takes a box from the first warehouse on its cell
        when that one has a box and the character can carry one more; a full
        character gets the capacity notice; anything else changes nothing. */
    method TakeBox() returns (notice: Notice)
      requires Valid()
      modifies this`stock, character`currentNumberOfBoxes, character`numberOfMovedBoxes,
        warehouses`numberOfBoxesInWarehouse
      ensures var found := old(FindAt(warehouses, character.positionOnGrid));
        var takes := Stocked(found, old(stock)) && old(character.currentNumberOfBoxes) + 1 <= maxNumberOfBoxesInCharacter;
        notice == (if Stocked(found, old(stock)) && !takes then CapacityExceeded(maxNumberOfBoxesInCharacter) else Silent) &&
        character.currentNumberOfBoxes == old(character.currentNumberOfBoxes) + (if takes then 1 else 0) &&
        character.numberOfMovedBoxes == old(character.numberOfMovedBoxes) + (if takes then 1 else 0) &&
        stock == if takes then old(stock)[found.value := old(stock)[found.value] - 1] else old(stock)
      ensures Valid()
    {
      ghost var found := FindAt(warehouses, character.positionOnGrid);
      ghost var takes := Stocked(found, stock) && character.currentNumberOfBoxes + 1 <= maxNumberOfBoxesInCharacter;
      notice := character.TakeBox(warehouses);
      if takes {
        SumUpdate(stock, found.value, stock[found.value] - 1);
        stock := stock[found.value := stock[found.value] - 1];
      }
    }

    /** transferBoxToExit: a box dragged from the warehouse on cell warehouseIndex
        to the exit is moved; an empty warehouse gives the notice instead. */
    method TransferBoxToExit(warehouseIndex: int) returns (notice: Notice)
      requires Valid()
      requires FindAt(warehouses, warehouseIndex).Some?
      modifies this`stock, character`numberOfMovedBoxes, warehouses`numberOfBoxesInWarehouse
      ensures var index := old(FindAt(warehouses, warehouseIndex)).value;
        old(stock)[index] > 0 ==>
          stock == old(stock)[index := old(stock)[index] - 1] &&
          character.numberOfMovedBoxes == old(character.numberOfMovedBoxes) + 1 &&
          notice == if character.numberOfMovedBoxes == numberOfAllBoxes then AllBoxesMoved else Silent
      ensures var index := old(FindAt(warehouses, warehouseIndex)).value;
        old(stock)[index] <= 0 ==>
          stock == old(stock) &&
          character.numberOfMovedBoxes == old(character.numberOfMovedBoxes) &&
          notice == NothingToTransfer
      ensures Valid()
    {
      var index := FindAt(warehouses, warehouseIndex).value;
      var targetWarehouse := warehouses[index];
      if targetWarehouse.numberOfBoxesInWarehouse > 0 {
        targetWarehouse.numberOfBoxesInWarehouse := targetWarehouse.numberOfBoxesInWarehouse - 1;
        character.numberOfMovedBoxes := character.numberOfMovedBoxes + 1;
        SumUpdate(stock, index, stock[index] - 1);
        stock := stock[index := stock[index] - 1];
        if character.numberOfMovedBoxes == numberOfAllBoxes {
          notice := AllBoxesMoved;
        } else {
          notice := Silent;
        }
      } else {
        notice := NothingToTransfer;
      }
    }

    /** In a game in play the moved boxes number between 0 and all boxes, and
        all boxes are moved exactly when every warehouse is empty: the win
        notice of moveDown and transferBoxToExit means that nothing is left. */
    lemma AllMovedIffWarehousesEmpty()
      requires Valid()
      ensures 0 <= character.numberOfMovedBoxes <= numberOfAllBoxes
      ensures character.numberOfMovedBoxes == numberOfAllBoxes <==>
        forall i :: 0 <= i < |warehouses| ==> warehouses[i].numberOfBoxesInWarehouse == 0
    {
      SumOfNonNegative(stock);
    }
  }
}
