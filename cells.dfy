/**
 * The objects the loader creates: white cells, which the solver later fills
 * in place, and runs, which hold a target sum and references to their
 * cells. A run is shared between the run lists and the membership map, so
 * it is a value holding references; a cell is an object.
 *
 * The abstraction functions at the end map these objects to the position
 * shapes of module Layout, through the cells' constant coordinates only.
 */
module Cells {
  import opened Layout
  import opened LayoutProofs

  /** A white cell at (row, col); `value` 0 means not filled in yet. */
  class Cell {
    const row: int
    const col: int
    var value: int

    constructor (row: int, col: int)
      ensures this.row == row && this.col == col && value == 0
    {
      this.row := row;
      this.col := col;
      value := 0;
    }

    function At(): Pos {
      Pos(row, col)
    }
  }

  /** A run: the sum its cells must reach and the cells, in order. */
  datatype Run = Run(target: int, cells: seq<Cell>)

  // ---------------------------------------------------------------------
  // The sum check of a run
  // ---------------------------------------------------------------------

  /** The sum of the values of `cs`. */
  function Sum(cs: seq<Cell>): int
    reads cs
  {
    if cs == [] then 0 else Sum(cs[..|cs| - 1]) + cs[|cs| - 1].value
  }

  /** No two cells of `cs` hold the same value. */
  predicate NoRepeats(cs: seq<Cell>)
    reads cs
  {
    forall a, b | 0 <= a < b < |cs| :: cs[a].value != cs[b].value
  }

  /**
   * The per-run check: the values add up to the target and none repeats.
   * Validator.sumaEsValida is not part of this model; this body is taken
   * from the description of the whole-board check at src/Tablero.java:188-196.
   */
  predicate SumIsValid(r: Run)
    reads r.cells
  {
    Sum(r.cells) == r.target && NoRepeats(r.cells)
  }

  /** Every cell of every run in `rs`. */
  function CellsOf(rs: seq<Run>): (cs: set<Cell>)
    ensures forall n, c | 0 <= n < |rs| && c in rs[n].cells :: c in cs
  {
    set n, c | 0 <= n < |rs| && c in rs[n].cells :: c
  }

  predicate AllSumsValid(rs: seq<Run>)
    reads CellsOf(rs)
  {
    forall n | 0 <= n < |rs| :: SumIsValid(rs[n])
  }

  // ---------------------------------------------------------------------
  // From objects to positions
  // ---------------------------------------------------------------------

  function Positions(cs: seq<Cell>): (ps: seq<Pos>)
    ensures |ps| == |cs|
    ensures forall k | 0 <= k < |cs| :: ps[k] == cs[k].At()
  {
    seq(|cs|, k requires 0 <= k < |cs| => cs[k].At())
  }

  function Shape(r: Run): RunShape {
    RunShape(r.target, Positions(r.cells))
  }

  function Shapes(rs: seq<Run>): (ss: seq<RunShape>)
    ensures |ss| == |rs|
    ensures forall n | 0 <= n < |rs| :: ss[n] == Shape(rs[n])
  {
    seq(|rs|, n requires 0 <= n < |rs| => Shape(rs[n]))
  }

  function ShapeMap(m: map<Key, Run>): (sm: map<Key, RunShape>)
    ensures sm.Keys == m.Keys
    ensures forall k | k in m :: sm[k] == Shape(m[k])
  {
    map k | k in m :: Shape(m[k])
  }

  /** `m` with the key of every cell of `cs` in direction `d`, in order, sent to `r`. */
  function Assigned(m: map<Key, Run>, d: Direction, cs: seq<Cell>, r: Run): map<Key, Run> {
    if cs == [] then m
    else Assigned(m, d, cs[..|cs| - 1], r)[Key(d, cs[|cs| - 1].At()) := r]
  }

  /** Assigning one more cell is one more map update. */
  lemma AssignedStep(m: map<Key, Run>, d: Direction, cs: seq<Cell>, r: Run, k: nat)
    requires k < |cs|
    ensures Assigned(m, d, cs[..k + 1], r) == Assigned(m, d, cs[..k], r)[Key(d, cs[k].At()) := r]
  {
    assert cs[..k + 1][..k] == cs[..k];
  }

  /** After the assignment every key holds `r` (a key of direction `d`) or what it held before. */
  lemma {:induction false} AssignedValues(m: map<Key, Run>, d: Direction, cs: seq<Cell>, r: Run)
    ensures forall k | k in Assigned(m, d, cs, r) ::
              (k.dir == d && Assigned(m, d, cs, r)[k] == r) || (k in m && Assigned(m, d, cs, r)[k] == m[k])
  {
    if cs != [] {
      AssignedValues(m, d, cs[..|cs| - 1], r);
    }
  }

  lemma ShapeMapUpdate(m: map<Key, Run>, k: Key, r: Run)
    ensures ShapeMap(m[k := r]) == ShapeMap(m)[k := Shape(r)]
  {
  }

  lemma PositionsAppend(cs: seq<Cell>, c: Cell)
    ensures Positions(cs + [c]) == Positions(cs) + [c.At()]
  {
  }

  lemma PositionsConcat(cs: seq<Cell>, more: seq<Cell>)
    ensures Positions(cs + more) == Positions(cs) + Positions(more)
  {
  }

  lemma ShapesAppend(rs: seq<Run>, added: seq<Run>)
    ensures Shapes(rs + added) == Shapes(rs) + Shapes(added)
  {
  }

  /** Assigning cells to a run is, on shapes, putting their positions one by one. */
  lemma {:induction false} AssignedShape(m: map<Key, Run>, d: Direction, cs: seq<Cell>, r: Run)
    ensures ShapeMap(Assigned(m, d, cs, r)) == PutCells(ShapeMap(m), d, Positions(cs), Shape(r))
  {
    if cs != [] {
      var init := cs[..|cs| - 1];
      AssignedShape(m, d, init, r);
      ShapeMapUpdate(Assigned(m, d, init, r), Key(d, cs[|cs| - 1].At()), r);
      assert Positions(cs)[..|cs| - 1] == Positions(init);
    }
  }
}
