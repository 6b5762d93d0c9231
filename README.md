# Grid box-mover: a verified model of the game engine

The game is a small puzzle played in a browser. A character walks on a grid
of `numberOfRows × numberOfColumns` cells. One extra cell, the exit, comes
after the last grid cell. The character takes boxes from randomly placed
warehouses and brings them to the exit. It can carry at most
`maxNumberOfBoxesInCharacter` boxes. A box can also be dragged from a
warehouse straight onto the exit.

The project models the rules of `script.js` and proves properties of them:

- `board.dfy` (`Board`): row-major addressing, `getNewPosition`, and the
  movement state machine on the positions `0 .. rows*columns`. The exit is
  position `rows*columns`.
- `random.dfy` (`Random`): `randomNumberInRange` as an arbitrary integer in
  `[min, max]`.
- `notices.dfy` (`Notices`): the `alert` calls as returned notice values.
- `storage.dfy` (`Storage`): the `Warehouse` class, `createWarehouses`,
  `placeWarehouses` and `placeWarehouse`. It also defines the array `find`
  by position and the box sums.
- `player.dfy` (`Player`): the `Character` class, with its four moves and
  `takeBox`.
- `engine.dfy` (`Engine`): `Game.validateValues` and the `Game` class. It
  covers set-up, the four moves, `takeBox` and `transferBoxToExit`, and the
  invariant every operation keeps.

The model keeps the source's form. Objects whose fields change are classes.
Their methods carry `modifies` clauses. The loops of `createWarehouses`,
`placeWarehouses` and `placeWarehouse` are loops with invariants. The
arithmetic of positions is a set of functions with lemmas.

Modelling decisions:

- **Random draws.** `Math.random` in `placeWarehouse` becomes a stream of
  draws `draws: seq<int>`, passed in. The retry loop reads it with a cursor.
  The function `Storage.Run` says where each warehouse lands for a given
  stream. A stream under which some warehouse never finds a free cell is
  excluded by a precondition (`Run(...).Some?`). The box counts of new
  warehouses are chosen by `Random.RandomNumberInRange`, a
  nondeterministic choice.
- **DOM state.** The DOM classes `warehouse` and `exit` become two things.
  One is the set of occupied positions. The other is the exit index, the
  last of the `rows*columns + 1` cells.
- **Box accounting.** `Game` keeps a ghost copy `stock` of the warehouse
  box counts. Its invariant `Valid()` has three parts:
  - the warehouses stand on distinct grid cells;
  - `Sum(stock) + numberOfMovedBoxes == numberOfAllBoxes`;
  - `0 <= currentNumberOfBoxes <= maxNumberOfBoxesInCharacter`, and the
    character stands on a position in `0 .. rows*columns`.

Details of the code worth noting, which the model keeps:

- The character starts on the exit: `new Character(..., cells.length - 1)`
  at script.js:98-99, and `cells.length - 1` is `rows*columns`. It does not
  start on the last grid cell.
- Warehouse draws range over `0 .. cells.length - 1`, the exit included
  (script.js:262). The retry loop then rejects the exit (script.js:263-264).
- `numberOfMovedBoxes` goes up when a box is picked up (script.js:426), not
  when it reaches the exit. So the conserved quantity is `boxes in
  warehouses + numberOfMovedBoxes`.
- `transferBoxToExit` raises `numberOfMovedBoxes` as well (script.js:144).
- Down from the last grid cell is the only way into the exit
  (script.js:361-364). Down from other cells of the last row is a no-op.

## Model

| member | source | states |
|---|---|---|
| Engine.ValidateValues | script.js:104-110 | accepted exactly when rows*columns >= numberOfWarehouses; message empty on acceptance and the "too many warehouses" text on rejection |
| Engine.ValidatedConfigurationCanBePlaced | script.js:104-110 | every configuration validateValues accepts can be set up: some draws place all warehouses |
| Engine.PlacedConfigurationIsValid | script.js:104-110 | conversely, whenever some draws place every warehouse on the grid, validateValues accepts the configuration (pigeonhole) |
| Board.Row | script.js:412-414 | getRow: the row whose cells contain the position, row*columns <= position < row*columns + columns |
| Board.Column | script.js:416-418 | getColumn: a column in [0, columns) with Row*columns + column == position |
| Board.NewPosition | script.js:374-408 | getNewPosition never yields a negative position, and an unknown direction leaves the position unchanged |
| Board.Move | script.js:331-372 | a move never yields a negative position, and from the exit only Up moves, to the cell before it |
| Board.RowColumnOnGrid | script.js:412-418 | getRow/getColumn of a grid position lie in [0, rows) and [0, columns) and row*columns + column gives the position back |
| Board.RowColumnOfDecomposition | script.js:412-418 | getRow/getColumn are the unique decomposition position == row*columns + column with 0 <= column < columns |
| Board.NewPositionSteps | script.js:374-408 | per direction, getNewPosition moves one column or one row when the neighbour exists, returns the same cell at a wall, and the same cell for an unknown direction |
| Board.NewPositionOnGrid | script.js:374-408 | from a grid cell getNewPosition always returns a grid cell in [0, rows*columns) |
| Board.ExitTransitions | script.js:331-372 | at the exit Left, Right and Down do nothing, Up goes to rows*columns-1, and Down from rows*columns-1 enters the exit |
| Board.MoveStaysInStates | script.js:331-372 | every move keeps the position in 0 .. rows*columns, and from a grid cell only Down from the last cell reaches the exit |
| Random.RandomNumberInRange | script.js:8-10 | the result lies in [min, max] |
| Storage.Warehouse.constructor | script.js:225-228 | a new warehouse holds between 1 and maxNumberOfBoxesInWarehouse boxes and is unplaced (position -1) |
| Storage.CreateWarehouses | script.js:230-237 | numberOfWarehouses fresh, distinct, unplaced warehouses with counts in [1, max], and numberOfAllBoxes is the sum of their counts |
| Storage.Sum | script.js:231-235 | the total of the box counts, numberOfAllBoxes; non-negative counts have a non-negative total |
| Storage.SumAppend | script.js:233-235 | pushing a warehouse adds its count to the running total |
| Storage.FirstFree | script.js:261-266 | the first draw from the cursor on that is neither occupied nor the exit, or the end of the stream |
| Storage.FirstFreeSkipsOnlyRejected | script.js:263-266 | every draw the retry loop skips is occupied or the exit |
| Storage.Warehouse.PlaceWarehouse | script.js:261-273 | the retry loop settles on the first accepted draw; the position is a free grid cell, never occupied, never the exit |
| Storage.Run | script.js:239-243 | the placement of the warehouses one after the other from a draw stream; when it succeeds it places one position per warehouse |
| Storage.RunPrefix | script.js:239-243 | when all warehouses can be placed, so can every prefix of them |
| Storage.RunNext | script.js:239-243 | each further warehouse takes the first free draw after the cursor left by the previous ones |
| Storage.RunSound | script.js:239-273 | placed positions lie in [0, exit), are pairwise distinct, and the occupied set is exactly the set of placed positions |
| Storage.CollisionFreeDrawsPlaced | script.js:239-273 | draws that avoid the exit and never repeat are placed as drawn, one draw per warehouse |
| Storage.PlaceWarehouses | script.js:239-243 | after placement each warehouse stands where Run says, and all positions are distinct grid cells |
| Storage.FindAt | script.js:421 | Array.find by position: None exactly when no warehouse stands there, otherwise the index of the first one that does |
| Storage.FindFrom | script.js:421 | the same search started at a given index |
| Storage.SumUpdate | script.js:425-427 | changing one warehouse's count changes the total by the difference |
| Storage.SumOfNonNegative | script.js:145 | a total of non-negative counts is non-negative and is zero exactly when every count is |
| Player.Character.constructor | script.js:282-287 | a new character carries nothing, has moved nothing and stands on the start position |
| Player.Character.MoveLeft | script.js:331-337 | the new position is Move(Left, …) and stays in 0 .. rows*columns |
| Player.Character.MoveRight | script.js:339-346 | the new position is Move(Right, …) and stays in 0 .. rows*columns |
| Player.Character.MoveUp | script.js:348-358 | the new position is Move(Up, …) and stays in 0 .. rows*columns |
| Player.Character.MoveDown | script.js:360-372 | the new position is Move(Down, …) and stays in 0 .. rows*columns |
| Player.Character.TakeBox | script.js:420-434 | with a stocked warehouse on the cell and room to carry, carried and moved go up by one and that warehouse down by one; at capacity only the capacity notice; otherwise nothing changes |
| Engine.SetUpWarehouses | script.js:95-97 | createWarehouses then placeWarehouses: distinct fresh warehouses on distinct grid cells as Run says, counts in [1, max], total equal to their sum |
| Engine.Game.constructor | script.js:83-101 | the game starts valid: warehouses placed by the draws, total equal to the sum of counts, empty-handed character on the exit |
| Engine.Game.MoveLeft | script.js:112-114 | the character's move, and the invariant is kept |
| Engine.Game.MoveUp | script.js:116-118 | the character's move, and the invariant is kept |
| Engine.Game.MoveRight | script.js:120-122 | the character's move, and the invariant is kept |
| Engine.Game.MoveDown | script.js:124-133 | the move; on the exit the load is reset to 0 and the win notice comes exactly when moved == all boxes; the invariant is kept |
| Engine.Game.TakeBox | script.js:135-137 | the three cases of takeBox stated on the game's counts, with conservation and the capacity bound kept |
| Engine.Game.TransferBoxToExit | script.js:139-153 | a stocked warehouse loses one box and moved goes up by one with the same win test; an empty one gives the nothing-to-transfer notice and changes nothing; carried and position never change |
| Engine.Game.AllMovedIffWarehousesEmpty | script.js:129-130 | in a valid game 0 <= moved <= all boxes, and moved == all boxes exactly when every warehouse is empty |

## Left out

- DOM construction and rendering are left out as presentation only: `Grid`, `createGrid`, `createRow`, `createExit`, `createLabel`, `placeCharacterInCell`, `refreshCell`, `createResultText` and `removeGridIfExist`. The cells are the occupied set plus the exit index.
- Event wiring is browser input, so it is left out: the key and click listeners, `handleStartGame`, `handleKeyPress`, `handleDragStart`, `handleDragOver` and `handleDrop`.
- `alert` is a returned `Notice` value. The text of the capacity message is reduced to the capacity it names.
- `Math.random` and its floating-point scaling are left out. A box count is an arbitrary integer in range, and a placement draw is an element of the `draws` stream.
- Storage.Warehouse.PlaceWarehouse and Engine.Game.constructor require a free draw to come in the stream. The source loop only terminates almost surely and may retry forever; that run is not modelled.
- Engine.Game.TransferBoxToExit requires a warehouse on `warehouseIndex`; the source dereferences `undefined` otherwise.
- Engine.Game.constructor requires `rows, columns >= 1`, `maxNumberOfBoxesInCharacter >= 0`, and `maxNumberOfBoxesInWarehouse >= 1` when there are warehouses. These are the form values the game is meant to be started with; others are not modelled.
- JavaScript coercion of form strings to numbers and the loose `==` in `find` are left out; all values are integers.
- Player.Character.TakeBox requires the warehouses to be distinct objects (no aliasing in the list), as createWarehouses makes them; a list holding one warehouse twice is not modelled.
- Storage.PlaceWarehouses and Engine.SetUpWarehouses require `Run(...).Some?` of the draw stream. A stream in which some warehouse never finds a free cell stands for the endless retry of script.js:263-266, which is not modelled.
- Storage.Warehouse.constructor and Storage.CreateWarehouses require `maxNumberOfBoxesInWarehouse >= 1`. With a maximum of 0, `randomNumberInRange(1, 0)` at script.js:9 still yields 1, a count above the maximum; that case is not modelled.
- Engine.Game.constructor and Engine.SetUpWarehouses take `numberOfWarehouses` as a `nat`. For a negative count the loop at script.js:232 runs zero times and the game has no warehouses; that input is not modelled.
