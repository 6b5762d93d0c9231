/** Addressing of the board and the movement state machine of the character.

    The grid has numberOfRows rows and numberOfColumns columns; its cells are
    numbered 0 .. numberOfRows*numberOfColumns-1 in row-major order.  One more
    cell, the exit, is appended after the last row and has the index
    numberOfRows*numberOfColumns.  The states of the character are therefore the
    positions 0 .. numberOfRows*numberOfColumns. */
module Board {

  /** Index of the exit cell, which is also the number of grid cells. */
  function Exit(numberOfColumns: int, numberOfRows: int): int {
    numberOfColumns * numberOfRows
  }

  /** getRow: the row of a position (floor division; positions are never negative):
      the row whose numberOfColumns cells contain the position. */
  function Row(position: nat, numberOfColumns: int): (row: nat)
    requires numberOfColumns >= 1
    ensures row * numberOfColumns <= position < row * numberOfColumns + numberOfColumns
  {
    position / numberOfColumns
  }

  /** getColumn: the column of a position, the offset of the position in its row. */
  function Column(position: nat, numberOfColumns: int): (column: nat)
    requires numberOfColumns >= 1
    ensures column < numberOfColumns
    ensures Row(position, numberOfColumns) * numberOfColumns + column == position
  {
    position % numberOfColumns
  }

  /** getNewPosition: the cell reached by one step in `direction`, or the same
      cell when that step would leave the grid or the direction is unknown. */
  function NewPosition(direction: string, position: nat, numberOfColumns: int, numberOfRows: int): (newPosition: int)
    requires numberOfColumns >= 1
    ensures newPosition >= 0
    ensures direction !in {"left", "right", "up", "down"} ==> newPosition == position
  {
    var previousRow, previousColumn := Row(position, numberOfColumns), Column(position, numberOfColumns);
    var (newRow, newColumn) :=
      if direction == "left" then
        (previousRow, if previousColumn - 1 > -1 then previousColumn - 1 else previousColumn)
      else if direction == "right" then
        (previousRow, if previousColumn + 1 < numberOfColumns then previousColumn + 1 else previousColumn)
      else if direction == "up" then
        (if previousRow - 1 > -1 then previousRow - 1 else previousRow, previousColumn)
      else if direction == "down" then
        (if previousRow + 1 < numberOfRows then previousRow + 1 else previousRow, previousColumn)
      else
        (previousRow, previousColumn);
    newRow * numberOfColumns + newColumn
  }

  /** The four arrow keys. */
  datatype Key = Left | Up | Right | Down

  /** The target of Character.moveLeft/moveUp/moveRight/moveDown from `position`:
      at the exit only Up does anything (it re-enters the grid at the last cell),
      and Down from the last cell enters the exit. */
  function Move(key: Key, position: nat, numberOfColumns: int, numberOfRows: int): (newPosition: int)
    requires numberOfColumns >= 1 && numberOfRows >= 1
    ensures newPosition >= 0
    ensures position == Exit(numberOfColumns, numberOfRows) ==>
      newPosition == if key == Up then position - 1 else position
  {
    var exit := Exit(numberOfColumns, numberOfRows);
    match key
    case Left =>
      if position != exit then NewPosition("left", position, numberOfColumns, numberOfRows) else position
    case Right =>
      if position != exit then NewPosition("right", position, numberOfColumns, numberOfRows) else position
    case Up =>
      if position == exit then exit - 1 else NewPosition("up", position, numberOfColumns, numberOfRows)
    case Down =>
      if position != exit then
        (if position == exit - 1 then exit else NewPosition("down", position, numberOfColumns, numberOfRows))
      else position
  }

  /** Multiplying by a positive factor of at least one gives at least the other factor. */
  lemma MulAtLeast(d: int, c: int)
    requires c >= 1 && d >= 1
    ensures d * c >= c
  {
  }

  /** The only multiple of c strictly between -c and c is zero. */
  lemma MulCancel(d: int, c: int)
    requires c >= 1 && -c < d * c < c
    ensures d == 0
  {
    if d >= 1 {
      MulAtLeast(d, c);
    } else if d <= -1 {
      assert (-d) * c == -(d * c);
      MulAtLeast(-d, c);
    }
  }

  /** Floor division and remainder are determined by any decomposition
      position == row * numberOfColumns + column with 0 <= column < numberOfColumns. */
  lemma RowColumnOfDecomposition(position: nat, numberOfColumns: int, row: int, column: int)
    requires numberOfColumns >= 1 && 0 <= column < numberOfColumns
    requires position == row * numberOfColumns + column
    ensures Row(position, numberOfColumns) == row && Column(position, numberOfColumns) == column
  {
    var q, m := position / numberOfColumns, position % numberOfColumns;
    assert position == q * numberOfColumns + m;
    assert (q - row) * numberOfColumns == column - m;
    MulCancel(q - row, numberOfColumns);
  }

  /** A grid position splits into a row in [0, numberOfRows) and a column in
      [0, numberOfColumns) that give the position back. */
  lemma RowColumnOnGrid(position: nat, numberOfColumns: int, numberOfRows: int)
    requires numberOfColumns >= 1 && numberOfRows >= 1
    requires position < Exit(numberOfColumns, numberOfRows)
    ensures Row(position, numberOfColumns) < numberOfRows
    ensures Column(position, numberOfColumns) < numberOfColumns
    ensures Row(position, numberOfColumns) * numberOfColumns + Column(position, numberOfColumns) == position
  {
    var r := Row(position, numberOfColumns);
    if r >= numberOfRows {
      MulMonotone(numberOfRows, r, numberOfColumns);
    }
  }

  /** What getNewPosition does from a grid cell, direction by direction: a step
      of one cell (one column, or one row of numberOfColumns cells) when the
      neighbour exists, the same cell at a wall, and the same cell for any
      other direction. */
  lemma {:induction false} NewPositionSteps(direction: string, position: nat, numberOfColumns: int, numberOfRows: int)
    requires numberOfColumns >= 1 && numberOfRows >= 1
    requires position < Exit(numberOfColumns, numberOfRows)
    ensures direction == "left" ==>
      NewPosition(direction, position, numberOfColumns, numberOfRows) ==
        if Column(position, numberOfColumns) == 0 then position else position - 1
    ensures direction == "right" ==>
      NewPosition(direction, position, numberOfColumns, numberOfRows) ==
        if Column(position, numberOfColumns) == numberOfColumns - 1 then position else position + 1
    ensures direction == "up" ==>
      NewPosition(direction, position, numberOfColumns, numberOfRows) ==
        if Row(position, numberOfColumns) == 0 then position else position - numberOfColumns
    ensures direction == "down" ==>
      NewPosition(direction, position, numberOfColumns, numberOfRows) ==
        if Row(position, numberOfColumns) == numberOfRows - 1 then position else position + numberOfColumns
    ensures direction !in {"left", "right", "up", "down"} ==>
      NewPosition(direction, position, numberOfColumns, numberOfRows) == position
  {
    RowColumnOnGrid(position, numberOfColumns, numberOfRows);
    var r := Row(position, numberOfColumns);
    assert (r - 1) * numberOfColumns == r * numberOfColumns - numberOfColumns;
    assert (r + 1) * numberOfColumns == r * numberOfColumns + numberOfColumns;
  }

  /** Multiplication by a non-negative factor is monotone. */
  lemma MulMonotone(a: int, b: int, c: int)
    requires a <= b && c >= 0
    ensures a * c <= b * c
  {
    assert b * c - a * c == (b - a) * c;
  }

  /** getNewPosition never leaves the grid: from a grid cell it returns a grid cell. */
  lemma {:induction false} NewPositionOnGrid(direction: string, position: nat, numberOfColumns: int, numberOfRows: int)
    requires numberOfColumns >= 1 && numberOfRows >= 1
    requires position < Exit(numberOfColumns, numberOfRows)
    ensures 0 <= NewPosition(direction, position, numberOfColumns, numberOfRows) < Exit(numberOfColumns, numberOfRows)
  {
    NewPositionSteps(direction, position, numberOfColumns, numberOfRows);
    RowColumnOnGrid(position, numberOfColumns, numberOfRows);
    var r, c := Row(position, numberOfColumns), Column(position, numberOfColumns);
    var exit := Exit(numberOfColumns, numberOfRows);
    assert (numberOfRows - 1) * numberOfColumns + numberOfColumns == exit;
    MulMonotone(r, numberOfRows - 1, numberOfColumns);
    if r < numberOfRows - 1 {
      MulMonotone(r + 1, numberOfRows - 1, numberOfColumns);
      assert (r + 1) * numberOfColumns == r * numberOfColumns + numberOfColumns;
    }
    if r > 0 {
      MulMonotone(1, r, numberOfColumns);
    }
  }

  /** Transitions at the exit: Left, Right and Down leave the character on the
      exit, Up takes it to the last grid cell, and Down from the last grid cell
      enters the exit. */
  lemma ExitTransitions(numberOfColumns: int, numberOfRows: int)
    requires numberOfColumns >= 1 && numberOfRows >= 1
    ensures var exit := Exit(numberOfColumns, numberOfRows);
      Move(Left, exit, numberOfColumns, numberOfRows) == exit &&
      Move(Right, exit, numberOfColumns, numberOfRows) == exit &&
      Move(Down, exit, numberOfColumns, numberOfRows) == exit &&
      Move(Up, exit, numberOfColumns, numberOfRows) == exit - 1 &&
      Move(Down, exit - 1, numberOfColumns, numberOfRows) == exit
  {
  }

  /** Every move keeps the character among the positions 0 .. exit, and from a
      grid cell the exit is reached only by Down from the last grid cell. */
  lemma {:induction false} MoveStaysInStates(key: Key, position: nat, numberOfColumns: int, numberOfRows: int)
    requires numberOfColumns >= 1 && numberOfRows >= 1
    requires position <= Exit(numberOfColumns, numberOfRows)
    ensures 0 <= Move(key, position, numberOfColumns, numberOfRows) <= Exit(numberOfColumns, numberOfRows)
    ensures position < Exit(numberOfColumns, numberOfRows) ==>
      (Move(key, position, numberOfColumns, numberOfRows) == Exit(numberOfColumns, numberOfRows) <==>
       key == Down && position == Exit(numberOfColumns, numberOfRows) - 1)
  {
    var exit := Exit(numberOfColumns, numberOfRows);
    assert exit >= 1;
    if position < exit {
      match key
      case Left => NewPositionOnGrid("left", position, numberOfColumns, numberOfRows);
      case Right => NewPositionOnGrid("right", position, numberOfColumns, numberOfRows);
      case Up => NewPositionOnGrid("up", position, numberOfColumns, numberOfRows);
      case Down => NewPositionOnGrid("down", position, numberOfColumns, numberOfRows);
    }
  }
}
