# Kakuro board loader, in Dafny

A model of the board of a Kakuro solver (`src/Tablero.java`, class `Tablero`):

- the construction step of `leerDesdeArchivo`, which turns a grid of tokens into the board;
- the accessor `getCeldasBlancas`;
- the membership lookups `getRunHorizontal` and `getRunVertical`;
- the whole-board sum check `validarSumasCompletas`.

A token is `.` or `0` for a white cell. A token containing `/` is a clue `v/h`: `v` is the sum of the run going down, `h` the sum of the run going right, and `-` means 0. Any other token is a black cell.

The loader fills its structures in a fixed order:

1. It stores every token and creates a cell for every white one, listing the cells in row-major order.
2. For every clue, row-major, it collects the maximal block of white cells to the right of the clue, then the block below it. It does this only for a direction whose sum is positive.
3. A non-empty block becomes a run with that sum. The run is appended to its direction's list, and every cell's key (direction, row, column) is mapped to the run.
4. The board is rejected (`null`) if some white cell lacks a horizontal or a vertical key.

## Modules

- `Tokens` (`tokens.dfy`): how a token is classified, and how a clue is split at its first `/` and parsed. The integer parse accepts an optional sign, ASCII digits and the 32-bit range, as `Integer.parseInt` does.
- `Layout` (`layout.dfy`): the construction as pure functions on positions. It defines the white positions, the block after a clue, the runs of each direction, the membership map and `Build(g)`, the board a grid yields or `None`.
- `LayoutProofs` (`layout_proofs.dfy`): what the construction guarantees:
  - the white list is exact and in row-major order;
  - blocks are maximal;
  - runs come from their clues, in row-major order;
  - no cell is in two runs of one direction;
  - the map indexes the runs;
  - the board is rejected exactly when some white cell lacks a run.
- `Cells` (`cells.dfy`):
  - the cell object (`Celda`): constant row and column, and a mutable value, 0 when empty;
  - the run value (`Run`): a target and references to its cells;
  - the per-run sum check;
  - the functions that map objects to positions.
- `Kakuro` (`board.dfy`): class `Board`, the imperative loader.
  - Its loops mirror the Java loops.
  - It is proved to build exactly `Build(g)`, with shared cell objects that sit at their own matrix positions.
  - It also holds the lookups and the sum check.

The Java map key `"H"+fila+","+col` (and its `V` form) is modelled as `Key(direction, position)`. The string is injective in the direction, row and column, so the two maps have the same structure. The loader reads its lines from a file; here it receives them as an already split grid `seq<seq<Token>>`.

Where the code and the design description of the system disagree, the model follows the code:

- The design bounds a run's target to 1..45 and its length to 1..9. The code accepts any positive 32-bit sum and any block length.
- The design calls every cell "in exactly one horizontal and one vertical run" and checks it at construction. The code checks only that both keys exist. `BuildAcceptedMembership` proves the "at most one" half, so on an accepted board the two statements agree.

## Model

| member | source | states |
|---|---|---|
| Tokens.ClueOfParts | src/Tablero.java:84-88 | `v/h` is a clue; it parses without an exception exactly when each part is `-` or a 32-bit integer literal; its sums are then the parts' values, with `-` read as 0 |
| LayoutProofs.WhitesExactly | src/Tablero.java:65-78 | the white list holds exactly the positions whose token is `.` or `0`, in strict row-major order |
| LayoutProofs.BlockFacts | src/Tablero.java:92-98 | the block collected after a clue is the maximal run of contiguous white cells from the next position, in order; the position past its end is not a white cell of the grid (the vertical loop at lines 111-117 is the same with direction Vertical) |
| LayoutProofs.RunsExactly | src/Tablero.java:81-126 | every run of a direction comes from a clue with a positive sum for it, has that sum as its target and the non-empty block after the clue as its cells; every such clue has its run in the list; runs are in strict row-major order of their clues; no cell is in two runs of one direction |
| LayoutProofs.RunCellsAreWhite | src/Tablero.java:94-97 | every cell of every run is a white position |
| LayoutProofs.MembersExactly | src/Tablero.java:103-105 | after all puts, a key of direction d is in the map exactly when its position is in a run of d, and it leads to that run (likewise for the V puts at lines 122-124) |
| LayoutProofs.BuildRejectsIff | src/Tablero.java:133-140 | the grid is rejected exactly when some white position is in no horizontal run or in no vertical run |
| LayoutProofs.BuildAcceptedMembership | src/Tablero.java:131-142 | on an accepted grid, every white position has a key in each direction, led to the one run of that direction that contains it |
| Cells.AssignedShape | src/Tablero.java:103-105 | mapping a run's cells one by one is, on positions, putting the run's positions one by one |
| Kakuro.Board.Load | src/Tablero.java:57-142 | returns null exactly when `Build(g)` rejects the grid; otherwise a fresh board whose matrix and tokens agree with the grid, whose white cells, runs and map are `Build(g)` seen as positions, whose run cells are the matrix cells and whose map indexes the runs; all white cells are new and hold 0 |
| Kakuro.Board.Populate | src/Tablero.java:60-129 | after the two passes the board holds the grid, is linked and indexed, and its shape is the construction's |
| Kakuro.Board.CreateCells | src/Tablero.java:65-78 | every position holds its token and a cell exactly when it is white; the white list lists the white positions in row-major order; every listed cell is new, holds 0 and is the matrix cell at its own position |
| Kakuro.Board.CreateRow | src/Tablero.java:66-77 | one row: its positions are stored, other rows are untouched, and the new cells of that row are appended left to right |
| Kakuro.Board.CollectRun | src/Tablero.java:92-98 | the collected cells are the matrix cells of the block after the clue, in order |
| Kakuro.Board.MapCells | src/Tablero.java:103-105 | the map becomes the old map with each cell's key, in order, sent to the run |
| Kakuro.Board.AppendRun | src/Tablero.java:99-105 | the run is appended to its direction's list, its cells are mapped to it, the other list and the white cells are unchanged, and every run cell stays a matrix cell |
| Kakuro.Board.AddRun | src/Tablero.java:90-107 | appends a run exactly when the block is not empty, with the clue's sum as target; on positions this appends `RunAt` to the list and does `PutRun` on the map |
| Kakuro.Board.ScanClue | src/Tablero.java:83-127 | a clue adds its horizontal run, then its vertical one, to the lists and the map; any other token changes nothing |
| Kakuro.Board.ScanNext | src/Tablero.java:82-127 | scanning position (i, j) extends the runs and the map from the clues before (i, j) to those before (i, j+1) |
| Kakuro.Board.ScanRow | src/Tablero.java:82-128 | scanning row i extends the runs and the map from the rows before i to the rows before i+1 |
| Kakuro.Board.CollectRuns | src/Tablero.java:81-129 | after the second pass, the run lists and the map are the construction's runs and membership map |
| Kakuro.Board.IndexedFromShapes | src/Tablero.java:99-124 | when the map indexes the runs on positions, it indexes the run objects: each run cell's key leads to its own run, and every key leads to a run holding a cell at the key's position |
| Kakuro.Board.AllCellsCovered | src/Tablero.java:133-140 | true exactly when every white cell has both an H and a V key; it stops at the first cell that lacks one |
| Kakuro.Board.ShapeIsBuild | src/Tablero.java:131-142 | a board built so far is complete exactly when the construction accepts the grid, and it is then the loaded board |
| Kakuro.Board.WhiteCellsExactly | src/Tablero.java:155-157 | on a loaded board the white cells are in strict row-major order, each at a white position and the matrix cell there; a matrix entry is non-null exactly when its token is white, and then it is a listed white cell |
| Kakuro.Board.RunOf | src/Tablero.java:165-177 | the lookup gives a run of that direction holding a cell at the queried position; it gives the run containing the cell whenever there is one; on a complete board it is defined for every white cell and gives a run holding that cell |
| Kakuro.Board.ValidateCompleteSums | src/Tablero.java:197-207 | true exactly when every horizontal run and every vertical run passes the per-run check; it stops at the first failure and changes nothing |
| Kakuro.Board.ValidatedCellRuns | src/Tablero.java:188-207 | when the check passes on a complete board, both runs of every white cell pass the per-run check |

## Left out

- Reading the file (lines 45-55), trimming and splitting lines, the `IOException` handler and the messages on standard error (lines 137, 143-146). These are I/O. The grid of tokens is the input.
- `imprimir` (lines 218-242): console output only.
- `src/Main.java` and `src/TestKakuro.java`: the menu, console input and timing. They only call the loader and the solver.
- `Validador`, `KakuroSolver`, `Run` and `Celda` are not part of this model. `Run` and `Celda` are inferred from their use: `new Celda(i, j)`, `.fila`, `.col`, `.valor`, `new Run(suma, celdas)`.
- Cells.SumIsValid is an assumption, not a model of `Validador.sumaEsValida`. It takes its meaning from the doc comment of `validarSumasCompletas` (lines 188-196): the values sum to the target and no value repeats. No other property of it is used.
- Kakuro.Board.Load: requires a well-formed grid:
  - at least one line;
  - no line shorter than the first;
  - every clue within the first line's width has two parts, each `-` or a 32-bit integer literal.
  On other input the Java loader throws an unchecked exception (`IndexOutOfBoundsException`, `ArrayIndexOutOfBoundsException` or `NumberFormatException`). That exception path is not modelled.
- Tokens.SumValue reads a field that is neither `-` nor an integer literal as 0. The loader throws there instead. The model never reaches that case, because `Load` requires well-formed tokens.
- Tokens.DecimalValue follows `Integer.parseInt` for ASCII digits only. The non-ASCII Unicode digits that `parseInt` also accepts are not modelled.
- Tokens that lie beyond the first line's width in a longer line are ignored, as in the Java code.
- Kakuro.Board.RunOf requires the board invariant `Valid()`, which every loaded board has. The Java getters can be called on any object state.
- The horizontal and vertical branches of the second pass (lines 90-107 and 109-126) are one direction-parameterised method. They are called in the same order, horizontal first.
- Integer overflow of the cell coordinates is not modelled: `fila`, `col` and the loop counters stay below the array sizes.
