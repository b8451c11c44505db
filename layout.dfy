/**
 * What the loader builds from a grid of tokens, as pure functions on
 * positions: the white cells in row-major order, the horizontal and vertical
 * runs of every clue, the membership map and the final coverage check.
 * The imperative loader in module Kakuro is proved to produce exactly this.
 */
module Layout {
  import opened Tokens
  import opened Options

  type Grid = seq<seq<Token>>

  datatype Pos = Pos(row: int, col: int)

  datatype Direction = Horizontal | Vertical

  /** A membership key: the direction letter and the cell's row and column. */
  datatype Key = Key(dir: Direction, at: Pos)

  /** A run as positions: its target sum and its cells in order. */
  datatype RunShape = RunShape(target: int, cells: seq<Pos>)

  /** Everything the loader builds, as positions. */
  datatype BoardShape = BoardShape(
    whites: seq<Pos>,
    horizontal: seq<RunShape>,
    vertical: seq<RunShape>,
    members: map<Key, RunShape>)

  /** At least one line, and no line shorter than the first: the first line's width is the board's. */
  predicate Sized(g: Grid) {
    |g| > 0 && forall i | 0 <= i < |g| :: |g[i]| >= |g[0]|
  }

  /**
   * What the loader needs of its lines to finish without an exception: they
   * are sized, and every clue within the board's width is made of two sum
   * fields.
   */
  predicate WellFormed(g: Grid) {
    Sized(g) && forall i, j | 0 <= i < |g| && 0 <= j < |g[0]| :: WellFormedToken(g[i][j])
  }

  function Cols(g: Grid): nat
    requires |g| > 0
  {
    |g[0]|
  }

  predicate InGrid(g: Grid, p: Pos)
    requires Sized(g)
  {
    0 <= p.row < |g| && 0 <= p.col < Cols(g)
  }

  function TokenAt(g: Grid, p: Pos): Token
    requires Sized(g) && InGrid(g, p)
  {
    g[p.row][p.col]
  }

  predicate WhiteAt(g: Grid, p: Pos)
    requires Sized(g)
  {
    InGrid(g, p) && IsWhite(TokenAt(g, p))
  }

  /** Row-major order on positions. */
  predicate Precedes(p: Pos, q: Pos) {
    p.row < q.row || (p.row == q.row && p.col < q.col)
  }

  predicate RowMajor(s: seq<Pos>) {
    forall a, b | 0 <= a < b < |s| :: Precedes(s[a], s[b])
  }

  // ---------------------------------------------------------------------
  // White cells
  // ---------------------------------------------------------------------

  /** The white positions of row `i` in columns before `j`, left to right. */
  function WhitesInRow(g: Grid, i: nat, j: nat): seq<Pos>
    requires Sized(g) && i < |g| && j <= Cols(g)
  {
    if j == 0 then []
    else WhitesInRow(g, i, j - 1) + (if IsWhite(g[i][j - 1]) then [Pos(i, j - 1)] else [])
  }

  /** The white positions of the rows before `i`, row-major. */
  function WhitesBefore(g: Grid, i: nat): seq<Pos>
    requires Sized(g) && i <= |g|
  {
    if i == 0 then [] else WhitesBefore(g, i - 1) + WhitesInRow(g, i - 1, Cols(g))
  }

  function Whites(g: Grid): seq<Pos>
    requires Sized(g)
  {
    WhitesBefore(g, |g|)
  }

  // ---------------------------------------------------------------------
  // Runs
  // ---------------------------------------------------------------------

  /** The next position in direction `d`: one column right or one row down. */
  function Step(d: Direction, p: Pos): Pos {
    if d == Horizontal then Pos(p.row, p.col + 1) else Pos(p.row + 1, p.col)
  }

  /** The position `m` steps from `p` in direction `d`. */
  function Advance(d: Direction, p: Pos, m: int): Pos {
    if d == Horizontal then Pos(p.row, p.col + m) else Pos(p.row + m, p.col)
  }

  /** The contiguous white positions from `p` on in direction `d`, up to the first non-white one. */
  function Block(g: Grid, d: Direction, p: Pos): seq<Pos>
    requires Sized(g)
    decreases if d == Horizontal then Cols(g) - p.col else |g| - p.row
  {
    if WhiteAt(g, p) then [p] + Block(g, d, Step(d, p)) else []
  }

  /** The sum a clue gives to direction `d`: the part after '/' for horizontal, before it for vertical. */
  function Target(g: Grid, d: Direction, p: Pos): int
    requires Sized(g) && InGrid(g, p) && IsClue(TokenAt(g, p))
  {
    var sums := ClueSums(TokenAt(g, p));
    if d == Horizontal then sums.1 else sums.0
  }

  /**
   * The run the token at `p` starts in direction `d`, if any: it must be a
   * clue with a positive sum for `d` followed by at least one white cell.
   */
  function RunAt(g: Grid, d: Direction, p: Pos): seq<RunShape>
    requires Sized(g) && InGrid(g, p)
  {
    if IsClue(TokenAt(g, p)) && Target(g, d, p) > 0 && Block(g, d, Step(d, p)) != [] then
      [RunShape(Target(g, d, p), Block(g, d, Step(d, p)))]
    else []
  }

  /** The runs in direction `d` of the clues of row `i` before column `j`. */
  function RunsInRow(g: Grid, d: Direction, i: nat, j: nat): seq<RunShape>
    requires Sized(g) && i < |g| && j <= Cols(g)
  {
    if j == 0 then [] else RunsInRow(g, d, i, j - 1) + RunAt(g, d, Pos(i, j - 1))
  }

  /** The runs in direction `d` of the clues of the rows before `i`. */
  function RunsBefore(g: Grid, d: Direction, i: nat): seq<RunShape>
    requires Sized(g) && i <= |g|
  {
    if i == 0 then [] else RunsBefore(g, d, i - 1) + RunsInRow(g, d, i - 1, Cols(g))
  }

  function Runs(g: Grid, d: Direction): seq<RunShape>
    requires Sized(g)
  {
    RunsBefore(g, d, |g|)
  }

  // ---------------------------------------------------------------------
  // Membership map
  // ---------------------------------------------------------------------

  /** Maps the key of every cell in `cells`, in order, to `r` (a later put replaces an earlier one). */
  function PutCells(m: map<Key, RunShape>, d: Direction, cells: seq<Pos>, r: RunShape): map<Key, RunShape> {
    if cells == [] then m
    else PutCells(m, d, cells[..|cells| - 1], r)[Key(d, cells[|cells| - 1]) := r]
  }

  /** Puts the cells of the run `rs` holds, if it holds one. */
  function PutRun(m: map<Key, RunShape>, d: Direction, rs: seq<RunShape>): map<Key, RunShape> {
    if rs == [] then m else PutCells(m, d, rs[0].cells, rs[0])
  }

  /** The map after the clues of row `i` before column `j`: for each, its horizontal run's cells then its vertical run's. */
  function MembersInRow(m: map<Key, RunShape>, g: Grid, i: nat, j: nat): map<Key, RunShape>
    requires Sized(g) && i < |g| && j <= Cols(g)
  {
    if j == 0 then m
    else
      var before := MembersInRow(m, g, i, j - 1);
      PutRun(PutRun(before, Horizontal, RunAt(g, Horizontal, Pos(i, j - 1))),
             Vertical, RunAt(g, Vertical, Pos(i, j - 1)))
  }

  /** The map after the clues of the rows before `i`. */
  function MembersBefore(g: Grid, i: nat): map<Key, RunShape>
    requires Sized(g) && i <= |g|
  {
    if i == 0 then map[] else MembersInRow(MembersBefore(g, i - 1), g, i - 1, Cols(g))
  }

  function Members(g: Grid): map<Key, RunShape>
    requires Sized(g)
  {
    MembersBefore(g, |g|)
  }

  // ---------------------------------------------------------------------
  // The whole construction
  // ---------------------------------------------------------------------

  /** Every white cell has a horizontal and a vertical key in the map. */
  predicate Covered(whites: seq<Pos>, members: map<Key, RunShape>) {
    forall p | p in whites :: Key(Horizontal, p) in members && Key(Vertical, p) in members
  }

  /** The board the loader builds from `g`, or None when it rejects it. */
  function Build(g: Grid): Option<BoardShape>
    requires Sized(g)
  {
    var s := BoardShape(Whites(g), Runs(g, Horizontal), Runs(g, Vertical), Members(g));
    if Covered(s.whites, s.members) then Some(s) else None
  }
}
