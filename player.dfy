/** The character: its position among the states 0 .. exit, the boxes it
    carries, and the boxes it has taken from warehouses so far. */
module Player {
  import opened Board
  import opened Storage
  import opened Notices

  class Character {
    const maxNumberOfBoxes: int
    var currentNumberOfBoxes: int
    var numberOfMovedBoxes: int
    var positionOnGrid: int

    /** A character that carries nothing, has moved nothing and stands on startPosition. */
    constructor (maxNumberOfBoxesInCharacter: int, startPosition: int)
      ensures maxNumberOfBoxes == maxNumberOfBoxesInCharacter
      ensures currentNumberOfBoxes == 0 && numberOfMovedBoxes == 0
      ensures positionOnGrid == startPosition
    {
      maxNumberOfBoxes := maxNumberOfBoxesInCharacter;
      currentNumberOfBoxes := 0;
      numberOfMovedBoxes := 0;
      positionOnGrid := startPosition;
    }

    /** moveLeft: one column to the left inside the grid; nothing at the exit. */
    method MoveLeft(numberOfColumns: int, numberOfRows: int)
      requires numberOfColumns >= 1 && numberOfRows >= 1
      requires 0 <= positionOnGrid <= Exit(numberOfColumns, numberOfRows)
      modifies this`positionOnGrid
      ensures positionOnGrid == Move(Left, old(positionOnGrid), numberOfColumns, numberOfRows)
      ensures 0 <= positionOnGrid <= Exit(numberOfColumns, numberOfRows)
    {
      MoveStaysInStates(Left, positionOnGrid, numberOfColumns, numberOfRows);
      if positionOnGrid != numberOfColumns * numberOfRows {
        var newPosition := NewPosition("left", positionOnGrid, numberOfColumns, numberOfRows);
        positionOnGrid := newPosition;
      }
    }

    /** moveRight: one column to the right inside the grid; nothing at the exit. */
    method MoveRight(numberOfColumns: int, numberOfRows: int)
      requires numberOfColumns >= 1 && numberOfRows >= 1
      requires 0 <= positionOnGrid <= Exit(numberOfColumns, numberOfRows)
      modifies this`positionOnGrid
      ensures positionOnGrid == Move(Right, old(positionOnGrid), numberOfColumns, numberOfRows)
      ensures 0 <= positionOnGrid <= Exit(numberOfColumns, numberOfRows)
    {
      MoveStaysInStates(Right, positionOnGrid, numberOfColumns, numberOfRows);
      if positionOnGrid != numberOfColumns * numberOfRows {
        var newPosition := NewPosition("right", positionOnGrid, numberOfColumns, numberOfRows);
        positionOnGrid := newPosition;
      }
    }

    /** moveUp: one row up inside the grid; from the exit back to the last grid cell. */
    method MoveUp(numberOfColumns: int, numberOfRows: int)
      requires numberOfColumns >= 1 && numberOfRows >= 1
      requires 0 <= positionOnGrid <= Exit(numberOfColumns, numberOfRows)
      modifies this`positionOnGrid
      ensures positionOnGrid == Move(Up, old(positionOnGrid), numberOfColumns, numberOfRows)
      ensures 0 <= positionOnGrid <= Exit(numberOfColumns, numberOfRows)
    {
      MoveStaysInStates(Up, positionOnGrid, numberOfColumns, numberOfRows);
      var newPosition;
      if positionOnGrid == numberOfColumns * numberOfRows {
        newPosition := numberOfColumns * numberOfRows - 1;
      } else {
        newPosition := NewPosition("up", positionOnGrid, numberOfColumns, numberOfRows);
      }
      positionOnGrid := newPosition;
    }

    /** moveDown: one row down inside the grid, from the last grid cell into the
        exit, and nothing at the exit. */
    method MoveDown(numberOfColumns: int, numberOfRows: int)
      requires numberOfColumns >= 1 && numberOfRows >= 1
      requires 0 <= positionOnGrid <= Exit(numberOfColumns, numberOfRows)
      modifies this`positionOnGrid
      ensures positionOnGrid == Move(Down, old(positionOnGrid), numberOfColumns, numberOfRows)
      ensures 0 <= positionOnGrid <= Exit(numberOfColumns, numberOfRows)
    {
      MoveStaysInStates(Down, positionOnGrid, numberOfColumns, numberOfRows);
      if positionOnGrid != numberOfColumns * numberOfRows {
        var newPosition;
        if positionOnGrid == numberOfColumns * numberOfRows - 1 {
          newPosition := numberOfColumns * numberOfRows;
        } else {
          newPosition := NewPosition("down", positionOnGrid, numberOfColumns, numberOfRows);
        }
        positionOnGrid := newPosition;
      }
    }

    /** takeBox: take one box from the first warehouse standing on the character's
        cell, when it has a box and the character can carry one more; a full
        character gets the capacity notice, and anything else does nothing. */
    method TakeBox(warehouses: seq<Warehouse>) returns (notice: Notice)
      requires forall i, j :: 0 <= i < j < |warehouses| ==> warehouses[i] != warehouses[j]
      modifies this`currentNumberOfBoxes, this`numberOfMovedBoxes, warehouses`numberOfBoxesInWarehouse
      ensures var found := old(FindAt(warehouses, positionOnGrid));
        var stocked := found.Some? && old(warehouses[found.value].numberOfBoxesInWarehouse) > 0;
        var takes := stocked && old(currentNumberOfBoxes) + 1 <= maxNumberOfBoxes;
        notice == (if stocked && !takes then CapacityExceeded(maxNumberOfBoxes) else Silent) &&
        currentNumberOfBoxes == old(currentNumberOfBoxes) + (if takes then 1 else 0) &&
        numberOfMovedBoxes == old(numberOfMovedBoxes) + (if takes then 1 else 0) &&
        forall i :: 0 <= i < |warehouses| ==>
          warehouses[i].numberOfBoxesInWarehouse ==
            old(warehouses[i].numberOfBoxesInWarehouse) - (if takes && i == found.value then 1 else 0)
    {
      notice := Silent;
      var found := FindAt(warehouses, positionOnGrid);
      if found.Some? {
        var warehouse := warehouses[found.value];
        if warehouse.numberOfBoxesInWarehouse > 0 {
          if currentNumberOfBoxes + 1 <= maxNumberOfBoxes {
            currentNumberOfBoxes := currentNumberOfBoxes + 1;
            numberOfMovedBoxes := numberOfMovedBoxes + 1;
            warehouse.numberOfBoxesInWarehouse := warehouse.numberOfBoxesInWarehouse - 1;
          } else {
            notice := CapacityExceeded(maxNumberOfBoxes);
          }
        }
      }
    }
  }
}
