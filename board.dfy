/**
 * The Kakuro board of src/Tablero.java: the loader that turns a grid of
 * tokens into white cells, horizontal and vertical runs and the membership
 * map; the two membership lookups; and the whole-board sum check.
 *
 * Every step keeps the position shape of the board (Board.Shape) equal to
 * the corresponding prefix of the construction in module Layout, so a
 * loaded board is exactly Build(g), and the facts proved in LayoutProofs
 * carry over to it.
 */
module Kakuro {
  import opened Tokens
  import opened Options
  import opened Layout
  import opened LayoutProofs
  import opened Cells

  class Board {
    /** The cell at each position whose token is white, null elsewhere. */
    const matrix: array2<Cell?>
    /** The token read at each position. */
    const tokens: array2<Token>
    /** The white cells, in row-major order. */
    var whiteCells: seq<Cell>
    var horizontalRuns: seq<Run>
    var verticalRuns: seq<Run>
    /** The run of each cell per direction, keyed by direction and position. */
    var runOf: map<Key, Run>

    constructor (rows: nat, cols: nat)
      ensures matrix.Length0 == rows && matrix.Length1 == cols
      ensures tokens.Length0 == rows && tokens.Length1 == cols
      ensures fresh(matrix) && fresh(tokens)
      ensures whiteCells == [] && horizontalRuns == [] && verticalRuns == [] && runOf == map[]
    {
      matrix := new Cell?[rows, cols];
      tokens := new Token[rows, cols];
      whiteCells := [];
      horizontalRuns := [];
      verticalRuns := [];
      runOf := map[];
    }

    function RunsIn(d: Direction): seq<Run>
      reads this
    {
      if d == Horizontal then horizontalRuns else verticalRuns
    }

    /** `c` is the cell the matrix holds at `c`'s own position. */
    predicate InMatrix(c: Cell)
      reads matrix
    {
      0 <= c.row < matrix.Length0 && 0 <= c.col < matrix.Length1 && matrix[c.row, c.col] == c
    }

    /** Position (i, j) holds the grid's token, and a cell at that position exactly when the token is white. */
    predicate CellAt(g: Grid, i: nat, j: nat)
      requires Sized(g) && i < |g| && j < Cols(g)
      requires i < matrix.Length0 && j < matrix.Length1 && i < tokens.Length0 && j < tokens.Length1
      reads matrix, tokens
    {
      Stored(g, i, j, tokens[i, j], matrix[i, j])
    }

    /** `t` and `cell` are what the board stores at (i, j) of `g`. */
    static predicate Stored(g: Grid, i: nat, j: nat, t: Token, cell: Cell?)
      requires Sized(g) && i < |g| && j < Cols(g)
    {
      && t == g[i][j]
      && (cell != null <==> IsWhite(g[i][j]))
      && (cell != null ==> cell.At() == Pos(i, j))
    }

    /** The matrix and the token table have the grid's shape and agree with it everywhere. */
    ghost predicate Holds(g: Grid)
      requires Sized(g)
      reads matrix, tokens
    {
      && matrix.Length0 == |g| && matrix.Length1 == Cols(g)
      && tokens.Length0 == |g| && tokens.Length1 == Cols(g)
      && forall i, j | 0 <= i < |g| && 0 <= j < Cols(g) :: CellAt(g, i, j)
    }

    ghost predicate CellsInMatrix(cs: seq<Cell>)
      reads matrix
    {
      forall c | c in cs :: InMatrix(c)
    }

    ghost predicate RunsInMatrix(rs: seq<Run>)
      reads matrix
    {
      forall r, c | r in rs && c in r.cells :: InMatrix(c)
    }

    /** Every run in `m` is listed under its key's direction. */
    static ghost predicate Listed(m: map<Key, Run>, hs: seq<Run>, vs: seq<Run>) {
      forall k | k in m :: m[k] in (if k.dir == Horizontal then hs else vs)
    }

    /** Every white cell and every run cell is the matrix cell at its position, and the map holds only listed runs. */
    ghost predicate Linked()
      reads this, matrix
    {
      && CellsInMatrix(whiteCells)
      && RunsInMatrix(horizontalRuns) && RunsInMatrix(verticalRuns)
      && Listed(runOf, horizontalRuns, verticalRuns)
    }

    /** What Linked says of one direction. */
    lemma LinkedIn(d: Direction)
      requires Linked()
      ensures RunsInMatrix(RunsIn(d))
      ensures forall k | k in runOf && k.dir == d :: runOf[k] in RunsIn(d)
    {
    }

    static lemma ListedAfterAdd(m: map<Key, Run>, hs: seq<Run>, vs: seq<Run>, d: Direction, run: Run)
      requires Listed(m, hs, vs)
      ensures Listed(Assigned(m, d, run.cells, run),
                     if d == Horizontal then hs + [run] else hs,
                     if d == Vertical then vs + [run] else vs)
    {
      AssignedValues(m, d, run.cells, run);
    }

    lemma RunsInMatrixAppend(rs: seq<Run>, run: Run)
      requires RunsInMatrix(rs) && CellsInMatrix(run.cells)
      ensures RunsInMatrix(rs + [run])
    {
    }

    /** Two runs whose cells sit at their own matrix positions are equal when their shapes are. */
    lemma SameShapeSameRun(r1: Run, r2: Run)
      requires CellsInMatrix(r1.cells) && CellsInMatrix(r2.cells)
      requires Cells.Shape(r1) == Cells.Shape(r2)
      ensures r1 == r2
    {
      forall k | 0 <= k < |r1.cells| ensures r1.cells[k] == r2.cells[k] {
        assert Positions(r1.cells)[k] == Positions(r2.cells)[k];
        assert InMatrix(r1.cells[k]) && InMatrix(r2.cells[k]);
      }
      assert r1.cells == r2.cells;
    }

    /** The key of every run cell leads to its run, and every key leads to a run with a cell at the key's position. */
    ghost predicate Indexed()
      reads this
    {
      && (forall d, r, c | r in RunsIn(d) && c in r.cells :: Key(d, c.At()) in runOf && runOf[Key(d, c.At())] == r)
      && (forall k | k in runOf :: exists c :: c in runOf[k].cells && c.At() == k.at)
    }

    ghost predicate Valid()
      reads this, matrix
    {
      Linked() && Indexed()
    }

    /** Every white cell has a horizontal and a vertical run in the map. */
    predicate Complete()
      reads this
    {
      forall c | c in whiteCells :: Key(Horizontal, c.At()) in runOf && Key(Vertical, c.At()) in runOf
    }

    /** The board seen as positions. */
    function Shape(): BoardShape
      reads this
    {
      BoardShape(Positions(whiteCells), Shapes(horizontalRuns), Shapes(verticalRuns), ShapeMap(runOf))
    }

    /** The board is what the loader builds from `g`. */
    ghost predicate Loaded(g: Grid)
      reads this, matrix, tokens
    {
      && Sized(g) && Holds(g) && Valid() && Complete()
      && Build(g).Some? && Shape() == Build(g).value
    }

    // -------------------------------------------------------------------
    // Loading
    // -------------------------------------------------------------------

    /**
     * Builds the board of `g`, or returns null when some white cell lacks
     * a horizontal or a vertical run. The cells are new and empty.
     */
    static method Load(g: Grid) returns (t: Board?)
      requires WellFormed(g)
      ensures t == null <==> Build(g).None?
      ensures t != null ==> fresh(t) && fresh(t.matrix) && fresh(t.tokens) && t.Loaded(g)
      ensures t != null ==> forall c | c in t.whiteCells :: fresh(c) && c.value == 0
    {
      var b := new Board(|g|, |g[0]|);
      b.Populate(g);
      var ok := b.AllCellsCovered();
      b.ShapeIsBuild(g);
      if !ok {
        return null;
      }
      return b;
    }

    /** Creates the cells, then collects the runs and maps their cells: the construction's shape before its check. */
    method Populate(g: Grid)
      requires Sized(g)
      requires matrix.Length0 == |g| && matrix.Length1 == Cols(g) && tokens.Length0 == |g| && tokens.Length1 == Cols(g)
      requires whiteCells == [] && horizontalRuns == [] && verticalRuns == [] && runOf == map[]
      modifies this, matrix, tokens
      ensures Holds(g) && Valid()
      ensures Positions(whiteCells) == Whites(g)
      ensures Shapes(horizontalRuns) == Runs(g, Horizontal) && Shapes(verticalRuns) == Runs(g, Vertical)
      ensures ShapeMap(runOf) == Members(g)
      ensures forall c | c in whiteCells :: fresh(c) && c.value == 0
    {
      CreateCells(g);
      ghost var cells := whiteCells;
      CollectRuns(g);
      assert whiteCells == cells && forall c | c in cells :: c.value == 0;
      MembersExactly(g);
      IndexedFromShapes(Members(g));
    }

    /** A board whose shape is the construction's is loaded exactly when it is complete. */
    lemma ShapeIsBuild(g: Grid)
      requires Sized(g) && Holds(g) && Valid()
      requires Positions(whiteCells) == Whites(g)
      requires Shapes(horizontalRuns) == Runs(g, Horizontal) && Shapes(verticalRuns) == Runs(g, Vertical)
      requires ShapeMap(runOf) == Members(g)
      ensures Complete() <==> Build(g).Some?
      ensures Complete() ==> Loaded(g)
    {
      CompleteIffCovered();
    }

    /** Stores every token and creates a cell, listed in row-major order, for every white one. */
    method CreateCells(g: Grid)
      requires Sized(g)
      requires matrix.Length0 == |g| && matrix.Length1 == Cols(g) && tokens.Length0 == |g| && tokens.Length1 == Cols(g)
      requires whiteCells == []
      modifies this, matrix, tokens
      ensures Holds(g)
      ensures Positions(whiteCells) == Whites(g)
      ensures forall c | c in whiteCells :: InMatrix(c) && fresh(c) && c.value == 0
      ensures horizontalRuns == old(horizontalRuns) && verticalRuns == old(verticalRuns) && runOf == old(runOf)
    {
      for i := 0 to |g|
        invariant forall r, c | 0 <= r < i && 0 <= c < Cols(g) :: Stored(g, r, c, tokens[r, c], matrix[r, c])
        invariant Positions(whiteCells) == WhitesBefore(g, i)
        invariant forall c | c in whiteCells :: InMatrix(c) && fresh(c) && c.value == 0 && c.row < i
        invariant horizontalRuns == old(horizontalRuns) && verticalRuns == old(verticalRuns) && runOf == old(runOf)
      {
        ghost var before := whiteCells;
        ghost var added := CreateRow(g, i);
        PositionsConcat(before, added);
      }
    }

    /** Stores the tokens of row `i` and appends a new cell, left to right, for every white one. */
    method CreateRow(g: Grid, i: nat) returns (ghost added: seq<Cell>)
      requires Sized(g) && i < |g|
      requires matrix.Length0 == |g| && matrix.Length1 == Cols(g) && tokens.Length0 == |g| && tokens.Length1 == Cols(g)
      modifies this, matrix, tokens
      ensures forall c | 0 <= c < Cols(g) :: Stored(g, i, c, tokens[i, c], matrix[i, c])
      ensures forall r, c | 0 <= r < |g| && r != i && 0 <= c < Cols(g) ::
                tokens[r, c] == old(tokens[r, c]) && matrix[r, c] == old(matrix[r, c])
      ensures whiteCells == old(whiteCells) + added
      ensures Positions(added) == WhitesInRow(g, i, Cols(g))
      ensures forall c | c in added :: c.row == i && InMatrix(c) && fresh(c) && c.value == 0
      ensures horizontalRuns == old(horizontalRuns) && verticalRuns == old(verticalRuns) && runOf == old(runOf)
    {
      added := [];
      for j := 0 to Cols(g)
        invariant forall c | 0 <= c < j :: Stored(g, i, c, tokens[i, c], matrix[i, c])
        invariant forall r, c | 0 <= r < |g| && 0 <= c < Cols(g) && (r != i || j <= c) ::
                    tokens[r, c] == old(tokens[r, c]) && matrix[r, c] == old(matrix[r, c])
        invariant whiteCells == old(whiteCells) + added
        invariant Positions(added) == WhitesInRow(g, i, j)
        invariant forall c | c in added :: c.row == i && c.col < j && InMatrix(c) && fresh(c) && c.value == 0
        invariant horizontalRuns == old(horizontalRuns) && verticalRuns == old(verticalRuns) && runOf == old(runOf)
      {
        var token := g[i][j];
        tokens[i, j] := token;
        if IsWhite(token) {
          var cell := new Cell(i, j);
          matrix[i, j] := cell;
          PositionsAppend(added, cell);
          whiteCells := whiteCells + [cell];
          added := added + [cell];
        } else {
          matrix[i, j] := null;
        }
      }
    }

    /** The cells of the white block that starts next to `clue` in direction `d`, in order. */
    method CollectRun(g: Grid, d: Direction, clue: Pos) returns (cells: seq<Cell>)
      requires Sized(g) && Holds(g) && InGrid(g, clue)
      ensures Positions(cells) == Block(g, d, Step(d, clue))
      ensures forall c | c in cells :: InMatrix(c)
    {
      cells := [];
      var p := Step(d, clue);
      while InGrid(g, p) && IsWhite(g[p.row][p.col])
        invariant p.row >= 0 && p.col >= 0
        invariant Positions(cells) + Block(g, d, p) == Block(g, d, Step(d, clue))
        invariant forall c | c in cells :: InMatrix(c)
        decreases if d == Horizontal then Cols(g) - p.col else |g| - p.row
      {
        assert CellAt(g, p.row, p.col);
        assert Block(g, d, p) == [p] + Block(g, d, Step(d, p));
        var cell := matrix[p.row, p.col];
        if cell != null {
          PositionsAppend(cells, cell);
          assert Positions(cells) + [p] + Block(g, d, Step(d, p)) == Positions(cells) + ([p] + Block(g, d, Step(d, p)));
          cells := cells + [cell];
        }
        p := Step(d, p);
      }
      assert Block(g, d, p) == [];
      assert Positions(cells) + [] == Positions(cells);
    }

    /** Sends the key of every cell of `run` in direction `d` to `run`, in order. */
    method MapCells(d: Direction, run: Run)
      modifies this
      ensures runOf == Assigned(old(runOf), d, run.cells, run)
      ensures whiteCells == old(whiteCells) && horizontalRuns == old(horizontalRuns) && verticalRuns == old(verticalRuns)
    {
      for k := 0 to |run.cells|
        invariant runOf == Assigned(old(runOf), d, run.cells[..k], run)
        invariant whiteCells == old(whiteCells) && horizontalRuns == old(horizontalRuns) && verticalRuns == old(verticalRuns)
      {
        AssignedStep(old(runOf), d, run.cells, run, k);
        runOf := runOf[Key(d, run.cells[k].At()) := run];
      }
      assert run.cells[..|run.cells|] == run.cells;
    }

    /**
     * Collects the run in direction `d` of the clue at `clue`, whose sum for
     * `d` is `sum`; when it has cells, appends it to that direction's list
     * and maps its cells to it. `added` is the run appended, if any.
     */
    method AddRun(g: Grid, d: Direction, clue: Pos, sum: int) returns (added: seq<Run>)
      requires Sized(g) && Holds(g) && InGrid(g, clue) && Linked()
      requires IsClue(TokenAt(g, clue)) && sum == Target(g, d, clue) && sum > 0
      modifies this
      ensures |added| <= 1 && RunsIn(d) == old(RunsIn(d)) + added
      ensures runOf == if added == [] then old(runOf) else Assigned(old(runOf), d, added[0].cells, added[0])
      ensures RunsIn(Opposite(d)) == old(RunsIn(Opposite(d))) && whiteCells == old(whiteCells)
      ensures Linked()
      ensures Shapes(added) == RunAt(g, d, clue)
      ensures ShapeMap(runOf) == PutRun(old(ShapeMap(runOf)), d, RunAt(g, d, clue))
    {
      var cells := CollectRun(g, d, clue);
      added := [];
      if cells != [] {
        var run := Run(sum, cells);
        AppendRun(d, run);
        added := [run];
      }
    }

    /** Appends `run` to the list of direction `d` and maps its cells to it. */
    method AppendRun(d: Direction, run: Run)
      requires Linked() && CellsInMatrix(run.cells)
      modifies this
      ensures RunsIn(d) == old(RunsIn(d)) + [run]
      ensures runOf == Assigned(old(runOf), d, run.cells, run)
      ensures RunsIn(Opposite(d)) == old(RunsIn(Opposite(d))) && whiteCells == old(whiteCells)
      ensures Linked()
      ensures ShapeMap(runOf) == PutCells(old(ShapeMap(runOf)), d, Positions(run.cells), Cells.Shape(run))
    {
      if d == Horizontal {
        horizontalRuns := horizontalRuns + [run];
      } else {
        verticalRuns := verticalRuns + [run];
      }
      MapCells(d, run);
      AssignedShape(old(runOf), d, run.cells, run);
      ListedAfterAdd(old(runOf), old(horizontalRuns), old(verticalRuns), d, run);
      RunsInMatrixAppend(old(RunsIn(d)), run);
    }

    /** Handles the token at `c`: when it is a clue, adds its horizontal run and then its vertical run. */
    method ScanClue(g: Grid, c: Pos)
      requires Sized(g) && Holds(g) && InGrid(g, c) && Linked()
      modifies this
      ensures Linked() && whiteCells == old(whiteCells)
      ensures Shapes(horizontalRuns) == old(Shapes(horizontalRuns)) + RunAt(g, Horizontal, c)
      ensures Shapes(verticalRuns) == old(Shapes(verticalRuns)) + RunAt(g, Vertical, c)
      ensures ShapeMap(runOf) ==
                PutRun(PutRun(old(ShapeMap(runOf)), Horizontal, RunAt(g, Horizontal, c)), Vertical, RunAt(g, Vertical, c))
    {
      var token := g[c.row][c.col];
      if IsClue(token) {
        var sums := ClueSums(token);
        if sums.1 > 0 {
          var h := AddRun(g, Horizontal, c, sums.1);
          ShapesAppend(old(horizontalRuns), h);
        }
        if sums.0 > 0 {
          var v := AddRun(g, Vertical, c, sums.0);
          ShapesAppend(old(verticalRuns), v);
        }
      }
    }

    /** Scans the clues row by row. */
    method CollectRuns(g: Grid)
      requires Sized(g) && Holds(g) && Linked()
      requires horizontalRuns == [] && verticalRuns == [] && runOf == map[]
      modifies this
      ensures Linked() && whiteCells == old(whiteCells)
      ensures Shapes(horizontalRuns) == Runs(g, Horizontal) && Shapes(verticalRuns) == Runs(g, Vertical)
      ensures ShapeMap(runOf) == Members(g)
    {
      assert RowsScanned(g, 0);
      for i := 0 to |g|
        invariant Linked() && whiteCells == old(whiteCells)
        invariant RowsScanned(g, i)
      {
        ScanRow(g, i);
      }
    }

    /** The runs and the map are those the clues of the rows before `i` give. */
    ghost predicate RowsScanned(g: Grid, i: nat)
      requires Sized(g) && i <= |g|
      reads this
    {
      && Shapes(horizontalRuns) == RunsBefore(g, Horizontal, i)
      && Shapes(verticalRuns) == RunsBefore(g, Vertical, i)
      && ShapeMap(runOf) == MembersBefore(g, i)
    }

    /** The runs and the map are those the clues before (i, j), row-major, give. */
    ghost predicate ScannedUpTo(g: Grid, i: nat, j: nat)
      requires Sized(g) && i < |g| && j <= Cols(g)
      reads this
    {
      && Shapes(horizontalRuns) == Scanned(g, Horizontal, i, j)
      && Shapes(verticalRuns) == Scanned(g, Vertical, i, j)
      && ShapeMap(runOf) == MembersInRow(MembersBefore(g, i), g, i, j)
    }

    lemma RowStart(g: Grid, i: nat)
      requires Sized(g) && i < |g| && RowsScanned(g, i)
      ensures ScannedUpTo(g, i, 0)
    {
    }

    lemma RowEnd(g: Grid, i: nat)
      requires Sized(g) && i < |g| && ScannedUpTo(g, i, Cols(g))
      ensures RowsScanned(g, i + 1)
    {
    }

    /** Scans the clues of row `i`, left to right. */
    method ScanRow(g: Grid, i: nat)
      requires Sized(g) && Holds(g) && Linked() && i < |g| && RowsScanned(g, i)
      modifies this
      ensures Linked() && whiteCells == old(whiteCells)
      ensures RowsScanned(g, i + 1)
    {
      RowStart(g, i);
      for j := 0 to Cols(g)
        invariant Linked() && whiteCells == old(whiteCells)
        invariant ScannedUpTo(g, i, j)
      {
        ScanNext(g, i, j);
      }
      RowEnd(g, i);
    }

    /** Scans the clue at (i, j), the next one in row-major order. */
    method ScanNext(g: Grid, i: nat, j: nat)
      requires Sized(g) && Holds(g) && Linked() && i < |g| && j < Cols(g)
      requires ScannedUpTo(g, i, j)
      modifies this
      ensures Linked() && whiteCells == old(whiteCells)
      ensures ScannedUpTo(g, i, j + 1)
    {
      ScanClue(g, Pos(i, j));
      ScannedAppend(g, Horizontal, i, j);
      ScannedAppend(g, Vertical, i, j);
    }

    /** Whether every white cell has a horizontal and a vertical run; stops at the first that lacks one. */
    method AllCellsCovered() returns (ok: bool)
      ensures ok <==> Complete()
    {
      for k := 0 to |whiteCells|
        invariant forall n | 0 <= n < k :: Key(Horizontal, whiteCells[n].At()) in runOf && Key(Vertical, whiteCells[n].At()) in runOf
      {
        var c := whiteCells[k];
        if Key(Horizontal, c.At()) !in runOf || Key(Vertical, c.At()) !in runOf {
          return false;
        }
      }
      return true;
    }

    // -------------------------------------------------------------------
    // From the shape of the board to its objects
    // -------------------------------------------------------------------

    /** A run cell's key leads to the run it is in, when the map's shape indexes the runs' shapes. */
    lemma RunKeyLeadsToRun(d: Direction, members: map<Key, RunShape>, r: Run, c: Cell)
      requires Linked() && ShapeMap(runOf) == members && Indexes(members, d, Shapes(RunsIn(d)))
      requires r in RunsIn(d) && c in r.cells
      ensures Key(d, c.At()) in runOf && runOf[Key(d, c.At())] == r
    {
      var rs := RunsIn(d);
      var n :| 0 <= n < |rs| && rs[n] == r;
      var idx :| 0 <= idx < |r.cells| && r.cells[idx] == c;
      assert Positions(r.cells)[idx] == c.At();
      assert InRun(c.At(), Shapes(rs)[n]);
      var k := Key(d, c.At());
      assert members[k] == Cells.Shape(r);
      LinkedIn(d);
      assert runOf[k] in RunsIn(d);
      SameShapeSameRun(runOf[k], r);
    }

    /** A key of direction `d` leads to a run holding a cell at the key's position. */
    lemma KeyLeadsToCell(d: Direction, members: map<Key, RunShape>, k: Key)
      requires Linked() && ShapeMap(runOf) == members && Indexes(members, d, Shapes(RunsIn(d)))
      requires k in runOf && k.dir == d
      ensures exists c :: c in runOf[k].cells && c.At() == k.at
    {
      var rs := RunsIn(d);
      var n :| 0 <= n < |Shapes(rs)| && InRun(k.at, Shapes(rs)[n]);
      var r := rs[n];
      var idx :| 0 <= idx < |r.cells| && Positions(r.cells)[idx] == k.at;
      var c := r.cells[idx];
      RunKeyLeadsToRun(d, members, r, c);
      assert Key(d, c.At()) == k;
    }

    /** When the map's shape indexes the shapes of both run lists, the map indexes the runs themselves. */
    lemma IndexedFromShapes(members: map<Key, RunShape>)
      requires Linked() && ShapeMap(runOf) == members
      requires Indexes(members, Horizontal, Shapes(horizontalRuns)) && Indexes(members, Vertical, Shapes(verticalRuns))
      ensures Indexed()
    {
      forall d, r, c | r in RunsIn(d) && c in r.cells ensures Key(d, c.At()) in runOf && runOf[Key(d, c.At())] == r {
        RunKeyLeadsToRun(d, members, r, c);
      }
      forall k | k in runOf ensures exists c :: c in runOf[k].cells && c.At() == k.at {
        KeyLeadsToCell(k.dir, members, k);
      }
    }

    lemma CompleteIffCovered()
      ensures Complete() <==> Covered(Positions(whiteCells), ShapeMap(runOf))
    {
      if Complete() {
        forall p | p in Positions(whiteCells)
          ensures Key(Horizontal, p) in ShapeMap(runOf) && Key(Vertical, p) in ShapeMap(runOf)
        {
          var k :| 0 <= k < |whiteCells| && Positions(whiteCells)[k] == p;
          assert whiteCells[k] in whiteCells;
        }
      }
      if Covered(Positions(whiteCells), ShapeMap(runOf)) {
        forall c | c in whiteCells ensures Key(Horizontal, c.At()) in runOf && Key(Vertical, c.At()) in runOf {
          var k :| 0 <= k < |whiteCells| && whiteCells[k] == c;
          assert Positions(whiteCells)[k] in Positions(whiteCells);
        }
      }
    }

    // -------------------------------------------------------------------
    // Queries
    // -------------------------------------------------------------------

    function WhiteCells(): seq<Cell>
      reads this
    {
      whiteCells
    }

    /**
     * The white cells of a loaded board are its matrix cells at exactly the
     * white positions, in strict row-major order.
     */
    lemma WhiteCellsExactly(g: Grid)
      requires Loaded(g)
      ensures RowMajor(Positions(WhiteCells()))
      ensures forall c | c in WhiteCells() :: WhiteAt(g, c.At()) && InMatrix(c)
      ensures forall i, j | 0 <= i < |g| && 0 <= j < Cols(g) :: matrix[i, j] != null <==> IsWhite(g[i][j])
      ensures forall i, j | 0 <= i < |g| && 0 <= j < Cols(g) && matrix[i, j] != null :: matrix[i, j] in WhiteCells()
    {
      WhitesExactly(g);
      forall c | c in whiteCells ensures WhiteAt(g, c.At()) {
        var k :| 0 <= k < |whiteCells| && whiteCells[k] == c;
        assert Positions(whiteCells)[k] == c.At();
      }
      forall i, j | 0 <= i < |g| && 0 <= j < Cols(g) && matrix[i, j] != null ensures matrix[i, j] in whiteCells {
        assert CellAt(g, i, j);
        assert Pos(i, j) in Whites(g);
        var k :| 0 <= k < |whiteCells| && Positions(whiteCells)[k] == Pos(i, j);
        assert InMatrix(whiteCells[k]);
      }
      forall i, j | 0 <= i < |g| && 0 <= j < Cols(g) ensures matrix[i, j] != null <==> IsWhite(g[i][j]) {
        assert CellAt(g, i, j);
      }
    }

    /**
     * The run of direction `d` that `c` is in: getRunHorizontal for
     * Horizontal, getRunVertical for Vertical. It is looked up by the cell's
     * position.
     */
    function RunOf(d: Direction, c: Cell): (r: Option<Run>)
      requires Valid()
      reads this, matrix
      ensures r.Some? ==> r.value in RunsIn(d) && exists c' :: c' in r.value.cells && c'.At() == c.At()
      ensures forall run | run in RunsIn(d) && c in run.cells :: r == Some(run)
      ensures c in whiteCells && Complete() ==> r.Some? && c in r.value.cells
    {
      WhiteCellKey(d, c);
      if Key(d, c.At()) in runOf then Some(runOf[Key(d, c.At())]) else None
    }

    /** A white cell's key, when present, leads to a run holding that very cell. */
    lemma WhiteCellKey(d: Direction, c: Cell)
      requires Valid()
      ensures c in whiteCells && Complete() ==> Key(d, c.At()) in runOf
      ensures c in whiteCells && Key(d, c.At()) in runOf ==> c in runOf[Key(d, c.At())].cells
    {
      var k := Key(d, c.At());
      if c in whiteCells && k in runOf {
        var c' :| c' in runOf[k].cells && c'.At() == k.at;
        LinkedIn(d);
        assert InMatrix(c') && InMatrix(c);
      }
    }

    // -------------------------------------------------------------------
    // The whole-board sum check
    // -------------------------------------------------------------------

    /** Whether every horizontal run and then every vertical run passes the per-run check; stops at the first that fails. */
    method ValidateCompleteSums() returns (ok: bool)
      ensures ok <==> AllSumsValid(horizontalRuns) && AllSumsValid(verticalRuns)
    {
      for n := 0 to |horizontalRuns|
        invariant forall m | 0 <= m < n :: SumIsValid(horizontalRuns[m])
      {
        if !SumIsValid(horizontalRuns[n]) {
          return false;
        }
      }
      for n := 0 to |verticalRuns|
        invariant AllSumsValid(horizontalRuns)
        invariant forall m | 0 <= m < n :: SumIsValid(verticalRuns[m])
      {
        if !SumIsValid(verticalRuns[n]) {
          return false;
        }
      }
      return true;
    }

    /** When the check passes on a complete board, both runs of every white cell satisfy the per-run check. */
    lemma ValidatedCellRuns(c: Cell)
      requires Valid() && Complete() && c in whiteCells
      requires AllSumsValid(horizontalRuns) && AllSumsValid(verticalRuns)
      ensures RunOf(Horizontal, c).Some? && SumIsValid(RunOf(Horizontal, c).value)
      ensures RunOf(Vertical, c).Some? && SumIsValid(RunOf(Vertical, c).value)
    {
      var h := RunOf(Horizontal, c).value;
      var v := RunOf(Vertical, c).value;
      var a :| 0 <= a < |horizontalRuns| && horizontalRuns[a] == h;
      var b :| 0 <= b < |verticalRuns| && verticalRuns[b] == v;
    }
  }
}
