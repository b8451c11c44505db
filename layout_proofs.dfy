/**
 * Properties of the construction in module Layout: the white list is
 * exactly the white positions in row-major order, every run is the maximal
 * block of white cells after its clue, runs come in row-major order of
 * their clues, no cell is in two runs of one direction, and the membership
 * map sends every run cell to its run. From these, Build rejects a grid
 * exactly when some white cell has no horizontal or no vertical run.
 */
module LayoutProofs {
  import opened Tokens
  import opened Options
  import opened Layout

  // ---------------------------------------------------------------------
  // White cells
  // ---------------------------------------------------------------------

  lemma AppendRowMajor(a: seq<Pos>, b: seq<Pos>)
    requires RowMajor(a) && RowMajor(b)
    requires forall x, y | x in a && y in b :: Precedes(x, y)
    ensures RowMajor(a + b)
  {
    forall u, v | 0 <= u < v < |a + b| ensures Precedes((a + b)[u], (a + b)[v]) {
      if v < |a| {
      } else if u >= |a| {
        assert (a + b)[u] == b[u - |a|] && (a + b)[v] == b[v - |a|];
      } else {
        assert (a + b)[u] in a && (a + b)[v] in b;
      }
    }
  }

  lemma {:induction false} WhitesInRowFacts(g: Grid, i: nat, j: nat)
    requires Sized(g) && i < |g| && j <= Cols(g)
    ensures forall p :: p in WhitesInRow(g, i, j) <==> p.row == i && 0 <= p.col < j && IsWhite(g[i][p.col])
    ensures RowMajor(WhitesInRow(g, i, j))
  {
    if j > 0 {
      WhitesInRowFacts(g, i, j - 1);
      var last := if IsWhite(g[i][j - 1]) then [Pos(i, j - 1)] else [];
      AppendRowMajor(WhitesInRow(g, i, j - 1), last);
    }
  }

  lemma {:induction false} WhitesBeforeFacts(g: Grid, i: nat)
    requires Sized(g) && i <= |g|
    ensures forall p :: p in WhitesBefore(g, i) <==> p.row < i && WhiteAt(g, p)
    ensures RowMajor(WhitesBefore(g, i))
  {
    if i > 0 {
      WhitesBeforeFacts(g, i - 1);
      WhitesInRowFacts(g, i - 1, Cols(g));
      AppendRowMajor(WhitesBefore(g, i - 1), WhitesInRow(g, i - 1, Cols(g)));
    }
  }

  /** The white list holds exactly the white positions, in strict row-major order. */
  lemma WhitesExactly(g: Grid)
    requires Sized(g)
    ensures forall p :: p in Whites(g) <==> WhiteAt(g, p)
    ensures RowMajor(Whites(g))
  {
    WhitesBeforeFacts(g, |g|);
  }

  // ---------------------------------------------------------------------
  // Blocks
  // ---------------------------------------------------------------------

  /**
   * A block is the maximal run of contiguous white cells from `p` in
   * direction `d`: its m-th element is m steps from `p` and white, and the
   * position just past it is not a white cell of the grid.
   */
  lemma {:induction false} BlockFacts(g: Grid, d: Direction, p: Pos)
    requires Sized(g)
    ensures forall m | 0 <= m < |Block(g, d, p)| :: Block(g, d, p)[m] == Advance(d, p, m) && WhiteAt(g, Block(g, d, p)[m])
    ensures !WhiteAt(g, Advance(d, p, |Block(g, d, p)|))
    decreases if d == Horizontal then Cols(g) - p.col else |g| - p.row
  {
    if WhiteAt(g, p) {
      var q := Step(d, p);
      BlockFacts(g, d, q);
      forall m | 0 <= m < |Block(g, d, p)|
        ensures Block(g, d, p)[m] == Advance(d, p, m)
      {
        if m > 0 {
          assert Block(g, d, p)[m] == Block(g, d, q)[m - 1];
        }
      }
    }
  }

  // ---------------------------------------------------------------------
  // Runs: where they come from, and their order
  // ---------------------------------------------------------------------

  /** The clue a run hangs from: the position just before its first cell. */
  function Origin(d: Direction, r: RunShape): Pos {
    if r.cells == [] then Pos(-1, -1) else Advance(d, r.cells[0], -1)
  }

  /** `r` is the run that the clue at `c` starts in direction `d`. */
  ghost predicate FromClue(g: Grid, d: Direction, c: Pos, r: RunShape)
    requires Sized(g)
  {
    && InGrid(g, c)
    && IsClue(TokenAt(g, c))
    && Target(g, d, c) > 0
    && r.target == Target(g, d, c)
    && r.cells == Block(g, d, Step(d, c))
    && r.cells != []
  }

  /** The cells of `r` are contiguous white cells right after a clue. */
  ghost predicate Hangs(g: Grid, d: Direction, r: RunShape)
    requires Sized(g)
  {
    && r.cells != []
    && InGrid(g, Origin(d, r))
    && IsClue(TokenAt(g, Origin(d, r)))
    && (forall m | 0 <= m < |r.cells| :: r.cells[m] == Advance(d, Step(d, Origin(d, r)), m) && WhiteAt(g, r.cells[m]))
  }

  ghost predicate AllFromClue(g: Grid, d: Direction, rs: seq<RunShape>)
    requires Sized(g)
  {
    forall n | 0 <= n < |rs| :: FromClue(g, d, Origin(d, rs[n]), rs[n])
  }

  ghost predicate AllHang(g: Grid, d: Direction, rs: seq<RunShape>)
    requires Sized(g)
  {
    forall n | 0 <= n < |rs| :: Hangs(g, d, rs[n])
  }

  /** The clues of the runs are in strict row-major order. */
  ghost predicate Ordered(d: Direction, rs: seq<RunShape>) {
    forall a, b | 0 <= a < b < |rs| :: Precedes(Origin(d, rs[a]), Origin(d, rs[b]))
  }

  ghost predicate OriginsBefore(d: Direction, rs: seq<RunShape>, c: Pos) {
    forall n | 0 <= n < |rs| :: Precedes(Origin(d, rs[n]), c)
  }

  ghost predicate OriginsInRow(d: Direction, rs: seq<RunShape>, i: int) {
    forall n | 0 <= n < |rs| :: Origin(d, rs[n]).row == i
  }

  ghost predicate OriginsAbove(d: Direction, rs: seq<RunShape>, i: int) {
    forall n | 0 <= n < |rs| :: Origin(d, rs[n]).row < i
  }

  /** Everything we state about a scanned sequence of runs. */
  ghost predicate WellScanned(g: Grid, d: Direction, rs: seq<RunShape>)
    requires Sized(g)
  {
    AllFromClue(g, d, rs) && AllHang(g, d, rs) && Ordered(d, rs)
  }

  lemma RunAtFacts(g: Grid, d: Direction, c: Pos)
    requires Sized(g) && InGrid(g, c)
    ensures |RunAt(g, d, c)| <= 1
    ensures RunAt(g, d, c) != [] ==>
              Origin(d, RunAt(g, d, c)[0]) == c && FromClue(g, d, c, RunAt(g, d, c)[0]) && Hangs(g, d, RunAt(g, d, c)[0])
  {
    if RunAt(g, d, c) != [] {
      BlockFacts(g, d, Step(d, c));
    }
  }

  /**
   * Appending the run of a clue that comes after all earlier clues of its
   * row keeps the sequence well scanned and inside that row.
   */
  lemma AppendRunAt(g: Grid, d: Direction, rs: seq<RunShape>, c: Pos)
    requires Sized(g) && InGrid(g, c)
    requires WellScanned(g, d, rs) && OriginsBefore(d, rs, c) && OriginsInRow(d, rs, c.row)
    ensures WellScanned(g, d, rs + RunAt(g, d, c))
    ensures OriginsBefore(d, rs + RunAt(g, d, c), Pos(c.row, c.col + 1))
    ensures OriginsInRow(d, rs + RunAt(g, d, c), c.row)
  {
    RunAtFacts(g, d, c);
    var all := rs + RunAt(g, d, c);
    forall n | 0 <= n < |all|
      ensures FromClue(g, d, Origin(d, all[n]), all[n]) && Hangs(g, d, all[n])
      ensures Precedes(Origin(d, all[n]), Pos(c.row, c.col + 1)) && Origin(d, all[n]).row == c.row
    {
      if n < |rs| {
        assert all[n] == rs[n];
      }
    }
    forall a, b | 0 <= a < b < |all| ensures Precedes(Origin(d, all[a]), Origin(d, all[b])) {
      if b < |rs| {
        assert all[a] == rs[a] && all[b] == rs[b];
      } else {
        assert all[a] == rs[a];
      }
    }
  }

  /** Runs of earlier rows followed by runs of row `i` stay well scanned. */
  lemma ConcatRows(g: Grid, d: Direction, pre: seq<RunShape>, row: seq<RunShape>, i: int)
    requires Sized(g)
    requires WellScanned(g, d, pre) && WellScanned(g, d, row)
    requires OriginsAbove(d, pre, i) && OriginsInRow(d, row, i)
    ensures WellScanned(g, d, pre + row)
    ensures OriginsAbove(d, pre + row, i + 1)
  {
    var all := pre + row;
    forall n | 0 <= n < |all|
      ensures FromClue(g, d, Origin(d, all[n]), all[n]) && Hangs(g, d, all[n]) && Origin(d, all[n]).row < i + 1
    {
      if n < |pre| {
        assert all[n] == pre[n];
      } else {
        assert all[n] == row[n - |pre|];
      }
    }
    forall a, b | 0 <= a < b < |all| ensures Precedes(Origin(d, all[a]), Origin(d, all[b])) {
      if b < |pre| {
        assert all[a] == pre[a] && all[b] == pre[b];
      } else if a >= |pre| {
        assert all[a] == row[a - |pre|] && all[b] == row[b - |pre|];
      } else {
        assert all[a] == pre[a] && all[b] == row[b - |pre|];
      }
    }
  }

  lemma {:induction false} RunsInRowFacts(g: Grid, d: Direction, i: nat, j: nat)
    requires Sized(g) && i < |g| && j <= Cols(g)
    ensures WellScanned(g, d, RunsInRow(g, d, i, j))
    ensures OriginsInRow(d, RunsInRow(g, d, i, j), i)
    ensures OriginsBefore(d, RunsInRow(g, d, i, j), Pos(i, j))
    ensures forall c | InGrid(g, c) && c.row == i && c.col < j && RunAt(g, d, c) != [] :: RunAt(g, d, c)[0] in RunsInRow(g, d, i, j)
  {
    if j > 0 {
      var c := Pos(i, j - 1);
      var pre := RunsInRow(g, d, i, j - 1);
      RunsInRowFacts(g, d, i, j - 1);
      AppendRunAt(g, d, pre, c);
      assert RunsInRow(g, d, i, j) == pre + RunAt(g, d, c);
      forall e | InGrid(g, e) && e.row == i && e.col < j && RunAt(g, d, e) != []
        ensures RunAt(g, d, e)[0] in RunsInRow(g, d, i, j)
      {
        if e.col < j - 1 {
          assert RunAt(g, d, e)[0] in pre;
        } else {
          assert e == c;
        }
      }
    }
  }

  lemma {:induction false} RunsBeforeFacts(g: Grid, d: Direction, i: nat)
    requires Sized(g) && i <= |g|
    ensures WellScanned(g, d, RunsBefore(g, d, i))
    ensures OriginsAbove(d, RunsBefore(g, d, i), i)
    ensures forall c | InGrid(g, c) && c.row < i && RunAt(g, d, c) != [] :: RunAt(g, d, c)[0] in RunsBefore(g, d, i)
  {
    if i > 0 {
      var pre := RunsBefore(g, d, i - 1);
      var row := RunsInRow(g, d, i - 1, Cols(g));
      RunsBeforeFacts(g, d, i - 1);
      RunsInRowFacts(g, d, i - 1, Cols(g));
      ConcatRows(g, d, pre, row, i - 1);
      assert RunsBefore(g, d, i) == pre + row;
      forall e | InGrid(g, e) && e.row < i && RunAt(g, d, e) != []
        ensures RunAt(g, d, e)[0] in pre + row
      {
        if e.row < i - 1 {
          assert RunAt(g, d, e)[0] in pre;
        } else {
          assert RunAt(g, d, e)[0] in row;
        }
      }
    }
  }

  /** The runs seen once the scan reaches position (i, j): those of earlier rows, then those of row i before column j. */
  function Scanned(g: Grid, d: Direction, i: nat, j: nat): seq<RunShape>
    requires Sized(g) && i < |g| && j <= Cols(g)
  {
    RunsBefore(g, d, i) + RunsInRow(g, d, i, j)
  }

  lemma ScannedFacts(g: Grid, d: Direction, i: nat, j: nat)
    requires Sized(g) && i < |g| && j <= Cols(g)
    ensures WellScanned(g, d, Scanned(g, d, i, j))
  {
    RunsBeforeFacts(g, d, i);
    RunsInRowFacts(g, d, i, j);
    ConcatRows(g, d, RunsBefore(g, d, i), RunsInRow(g, d, i, j), i);
  }

  // ---------------------------------------------------------------------
  // No cell is in two runs of one direction
  // ---------------------------------------------------------------------

  predicate InRun(p: Pos, r: RunShape) {
    p in r.cells
  }

  /** Two runs of `rs` that share a cell are the same run. */
  ghost predicate Disjoint(rs: seq<RunShape>) {
    forall a, b, p | 0 <= a < |rs| && 0 <= b < |rs| && InRun(p, rs[a]) && InRun(p, rs[b]) :: a == b
  }

  /** A run whose clue comes earlier stops before a later clue, so it cannot reach the later run. */
  lemma EarlierRunMissesLater(g: Grid, d: Direction, r1: RunShape, r2: RunShape, p: Pos)
    requires Sized(g)
    requires Hangs(g, d, r1) && Hangs(g, d, r2)
    requires Precedes(Origin(d, r1), Origin(d, r2))
    ensures !(InRun(p, r1) && InRun(p, r2))
  {
    if InRun(p, r1) && InRun(p, r2) {
      var c1, c2 := Origin(d, r1), Origin(d, r2);
      var m1 :| 0 <= m1 < |r1.cells| && r1.cells[m1] == p;
      var m2 :| 0 <= m2 < |r2.cells| && r2.cells[m2] == p;
      assert r1.cells[m1] == Advance(d, Step(d, c1), m1);
      assert r2.cells[m2] == Advance(d, Step(d, c2), m2);
      var gap := if d == Horizontal then c2.col - c1.col - 1 else c2.row - c1.row - 1;
      assert 0 <= gap < m1;
      assert r1.cells[gap] == c2;
      ClueIsNotWhite(TokenAt(g, c2));
      assert false;
    }
  }

  lemma OrderedDisjoint(g: Grid, d: Direction, rs: seq<RunShape>)
    requires Sized(g) && AllHang(g, d, rs) && Ordered(d, rs)
    ensures Disjoint(rs)
  {
    forall a, b, p | 0 <= a < |rs| && 0 <= b < |rs| && InRun(p, rs[a]) && InRun(p, rs[b]) ensures a == b {
      if a < b {
        EarlierRunMissesLater(g, d, rs[a], rs[b], p);
      } else if b < a {
        EarlierRunMissesLater(g, d, rs[b], rs[a], p);
      }
    }
  }

  // ---------------------------------------------------------------------
  // The membership map
  // ---------------------------------------------------------------------

  /**
   * The d-keys of `m` are exactly the cells of the runs in `rs`, and each
   * maps to its run.
   */
  ghost predicate Indexes(m: map<Key, RunShape>, d: Direction, rs: seq<RunShape>) {
    && (forall n, p | 0 <= n < |rs| && InRun(p, rs[n]) :: Key(d, p) in m && m[Key(d, p)] == rs[n])
    && (forall k | k in m && k.dir == d :: exists n :: 0 <= n < |rs| && InRun(k.at, rs[n]))
  }

  lemma {:induction false} PutCellsFacts(m: map<Key, RunShape>, d: Direction, cells: seq<Pos>, r: RunShape)
    ensures forall k :: k in PutCells(m, d, cells, r) <==> k in m || (k.dir == d && k.at in cells)
    ensures forall k | k in PutCells(m, d, cells, r) ::
              PutCells(m, d, cells, r)[k] == if k.dir == d && k.at in cells then r else m[k]
  {
    if cells != [] {
      var init := cells[..|cells| - 1];
      PutCellsFacts(m, d, init, r);
      assert cells == init + [cells[|cells| - 1]];
    }
  }

  /** Putting the cells of one more run of direction `d` keeps the map indexing that direction's runs, now with it. */
  lemma PutRunAdds(m: map<Key, RunShape>, d: Direction, rs: seq<RunShape>, added: seq<RunShape>)
    requires |added| <= 1 && Indexes(m, d, rs) && Disjoint(rs + added)
    ensures Indexes(PutRun(m, d, added), d, rs + added)
  {
    if added != [] {
      var r := added[0];
      var all := rs + added;
      var m' := PutRun(m, d, added);
      PutCellsFacts(m, d, r.cells, r);
      forall n, p | 0 <= n < |all| && InRun(p, all[n]) ensures Key(d, p) in m' && m'[Key(d, p)] == all[n] {
        if n < |rs| {
          assert all[n] == rs[n];
          if p in r.cells {
            assert InRun(p, all[|rs|]);
            assert false;
          }
        }
      }
      forall k | k in m' && k.dir == d ensures exists n :: 0 <= n < |all| && InRun(k.at, all[n]) {
        if k.at in r.cells {
          assert InRun(k.at, all[|rs|]);
        } else {
          var n :| 0 <= n < |rs| && InRun(k.at, rs[n]);
          assert all[n] == rs[n];
        }
      }
    } else {
      assert rs + added == rs;
    }
  }

  /** Putting the cells of a run of direction `d` leaves the indexing of the other direction alone. */
  lemma PutRunKeeps(m: map<Key, RunShape>, d: Direction, e: Direction, rs: seq<RunShape>, added: seq<RunShape>)
    requires e != d && Indexes(m, e, rs)
    ensures Indexes(PutRun(m, d, added), e, rs)
  {
    if added != [] {
      PutCellsFacts(m, d, added[0].cells, added[0]);
    }
  }

  function Opposite(d: Direction): Direction {
    if d == Horizontal then Vertical else Horizontal
  }

  lemma ScannedDisjoint(g: Grid, d: Direction, i: nat, j: nat)
    requires Sized(g) && i < |g| && j <= Cols(g)
    ensures Disjoint(Scanned(g, d, i, j))
  {
    ScannedFacts(g, d, i, j);
    OrderedDisjoint(g, d, Scanned(g, d, i, j));
  }

  /** Scanning one more clue appends its run. */
  lemma ScannedAppend(g: Grid, d: Direction, i: nat, j: nat)
    requires Sized(g) && i < |g| && j < Cols(g)
    ensures Scanned(g, d, i, j + 1) == Scanned(g, d, i, j) + RunAt(g, d, Pos(i, j))
  {
  }

  /** Scanning one more clue appends its run, and the runs stay disjoint. */
  lemma ScannedStep(g: Grid, d: Direction, i: nat, j: nat)
    requires Sized(g) && i < |g| && j < Cols(g)
    ensures Scanned(g, d, i, j + 1) == Scanned(g, d, i, j) + RunAt(g, d, Pos(i, j))
    ensures |RunAt(g, d, Pos(i, j))| <= 1
    ensures Disjoint(Scanned(g, d, i, j) + RunAt(g, d, Pos(i, j)))
  {
    ScannedAppend(g, d, i, j);
    RunAtFacts(g, d, Pos(i, j));
    ScannedDisjoint(g, d, i, j + 1);
  }

  /** One clue's puts keep the map indexing the runs of direction `d` scanned so far. */
  lemma MembersStep(g: Grid, before: map<Key, RunShape>, i: nat, j: nat, d: Direction)
    requires Sized(g) && i < |g| && j < Cols(g)
    requires Indexes(before, d, Scanned(g, d, i, j))
    ensures Indexes(PutRun(PutRun(before, Horizontal, RunAt(g, Horizontal, Pos(i, j))), Vertical, RunAt(g, Vertical, Pos(i, j))),
                    d, Scanned(g, d, i, j + 1))
  {
    var rs := Scanned(g, d, i, j);
    var ha, va := RunAt(g, Horizontal, Pos(i, j)), RunAt(g, Vertical, Pos(i, j));
    ScannedStep(g, d, i, j);
    if d == Horizontal {
      PutRunAdds(before, Horizontal, rs, ha);
      PutRunKeeps(PutRun(before, Horizontal, ha), Vertical, Horizontal, rs + ha, va);
    } else {
      PutRunKeeps(before, Horizontal, Vertical, rs, ha);
      PutRunAdds(PutRun(before, Horizontal, ha), Vertical, rs, va);
    }
  }

  lemma {:induction false} MembersInRowIndexes(g: Grid, m: map<Key, RunShape>, i: nat, j: nat, d: Direction)
    requires Sized(g) && i < |g| && j <= Cols(g)
    requires Indexes(m, d, RunsBefore(g, d, i))
    ensures Indexes(MembersInRow(m, g, i, j), d, Scanned(g, d, i, j))
  {
    if j == 0 {
      assert Scanned(g, d, i, 0) == RunsBefore(g, d, i);
    } else {
      MembersInRowIndexes(g, m, i, j - 1, d);
      MembersStep(g, MembersInRow(m, g, i, j - 1), i, j - 1, d);
    }
  }

  lemma {:induction false} MembersBeforeIndexes(g: Grid, i: nat, d: Direction)
    requires Sized(g) && i <= |g|
    ensures Indexes(MembersBefore(g, i), d, RunsBefore(g, d, i))
  {
    if i > 0 {
      MembersBeforeIndexes(g, i - 1, d);
      MembersInRowIndexes(g, MembersBefore(g, i - 1), i - 1, Cols(g), d);
    }
  }

  // ---------------------------------------------------------------------
  // The whole construction
  // ---------------------------------------------------------------------

  /**
   * The runs of one direction are exactly the runs of the clues that have a
   * positive sum for it and a non-empty block after them, in row-major
   * order of their clues, and no cell is in two of them.
   */
  lemma RunsExactly(g: Grid, d: Direction)
    requires Sized(g)
    ensures WellScanned(g, d, Runs(g, d))
    ensures forall c | InGrid(g, c) && RunAt(g, d, c) != [] :: RunAt(g, d, c)[0] in Runs(g, d)
    ensures Disjoint(Runs(g, d))
  {
    RunsBeforeFacts(g, d, |g|);
    OrderedDisjoint(g, d, Runs(g, d));
  }

  /** Every cell of every run is a white cell. */
  lemma RunCellsAreWhite(g: Grid, d: Direction)
    requires Sized(g)
    ensures forall n, p | 0 <= n < |Runs(g, d)| && InRun(p, Runs(g, d)[n]) :: WhiteAt(g, p)
  {
    RunsExactly(g, d);
    forall n, p | 0 <= n < |Runs(g, d)| && InRun(p, Runs(g, d)[n]) ensures WhiteAt(g, p) {
      assert Hangs(g, d, Runs(g, d)[n]);
    }
  }

  /** The membership map sends the cells of each direction's runs, and nothing else, to their run. */
  lemma MembersExactly(g: Grid)
    requires Sized(g)
    ensures Indexes(Members(g), Horizontal, Runs(g, Horizontal))
    ensures Indexes(Members(g), Vertical, Runs(g, Vertical))
  {
    MembersBeforeIndexes(g, |g|, Horizontal);
    MembersBeforeIndexes(g, |g|, Vertical);
  }

  ghost predicate InSomeRun(p: Pos, rs: seq<RunShape>) {
    exists n :: 0 <= n < |rs| && InRun(p, rs[n])
  }

  /** The loader rejects a grid exactly when some white cell is in no horizontal run or in no vertical run. */
  lemma BuildRejectsIff(g: Grid)
    requires Sized(g)
    ensures Build(g).None? <==>
              exists p :: WhiteAt(g, p) && !(InSomeRun(p, Runs(g, Horizontal)) && InSomeRun(p, Runs(g, Vertical)))
  {
    WhitesExactly(g);
    MembersExactly(g);
  }

  /**
   * On an accepted grid every white cell is in exactly one horizontal and
   * exactly one vertical run, and the map gives it those runs.
   */
  lemma BuildAcceptedMembership(g: Grid, p: Pos, d: Direction)
    requires Sized(g) && Build(g).Some? && WhiteAt(g, p)
    ensures Key(d, p) in Build(g).value.members
    ensures InRun(p, Build(g).value.members[Key(d, p)])
    ensures Build(g).value.members[Key(d, p)] in Runs(g, d)
    ensures forall n | 0 <= n < |Runs(g, d)| && InRun(p, Runs(g, d)[n]) :: Runs(g, d)[n] == Build(g).value.members[Key(d, p)]
    ensures forall a, b | 0 <= a < |Runs(g, d)| && 0 <= b < |Runs(g, d)| && InRun(p, Runs(g, d)[a]) && InRun(p, Runs(g, d)[b]) :: a == b
  {
    WhitesExactly(g);
    MembersExactly(g);
    RunsExactly(g, d);
    var k := Key(d, p);
    var n :| 0 <= n < |Runs(g, d)| && InRun(p, Runs(g, d)[n]);
  }
}
