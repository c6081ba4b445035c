/**
  Sudoku boards as values: the geometry of rows, columns and boxes, what a legal
  board is, and the set of completions of a board.  This is the reference the
  solver, the generator and the game are proved against; nothing here knows
  about bit masks or search.
 */
module SudokuGrid {
  import opened Arith

  /** Cell values in row-major order; 0 is an empty cell. */
  type Board = seq<int>

  /** The three kinds of unit a cell belongs to. */
  datatype Kind = RowUnit | ColUnit | BoxUnit

  /** The pair (size, boxSize) the engine passes around. */
  datatype Shape = Shape(size: nat, boxSize: nat) {

    /** boxSize is the integer square root of size, and digits fit a 32-bit mask. */
    predicate Valid() {
      1 <= boxSize && size == boxSize * boxSize && size <= 30
    }

    function Cells(): nat { size * size }

    function Row(i: nat): nat
      requires 0 < size
    {
      i / size
    }

    function Col(i: nat): nat
      requires 0 < size
    {
      i % size
    }

    function Box(i: nat): nat
      requires 0 < size && 0 < boxSize
    {
      Row(i) / boxSize * boxSize + Col(i) / boxSize
    }

    function Unit(kind: Kind, i: nat): nat
      requires 0 < size && 0 < boxSize
    {
      match kind
      case RowUnit => Row(i)
      case ColUnit => Col(i)
      case BoxUnit => Box(i)
    }

    /** Distinct cells that share a row, a column or a box. */
    predicate Peers(i: nat, j: nat)
      requires Valid()
    {
      i != j && (Row(i) == Row(j) || Col(i) == Col(j) || Box(i) == Box(j))
    }

    ghost predicate IsBoard(b: Board) { |b| == Cells() }
  }

  lemma BoxInRange(r: nat, c: nat, k: nat)
    requires 0 < k && r < k * k && c < k * k
    ensures r / k * k + c / k < k * k
  {
    DivBelow(r, k, k);
    DivBelow(c, k, k);
    PairBelow(r / k, c / k, k);
  }

  lemma UnitsInRange(sh: Shape, i: nat)
    requires sh.Valid() && i < sh.Cells()
    ensures sh.Row(i) < sh.size && sh.Col(i) < sh.size && sh.Box(i) < sh.size
  {
    DivBelow(i, sh.size, sh.size);
    BoxInRange(sh.Row(i), sh.Col(i), sh.boxSize);
  }

  /** The cell in row r and column c, and the box it lies in. */
  lemma CellInUnits(sh: Shape, r: nat, c: nat)
    requires sh.Valid() && r < sh.size && c < sh.size
    ensures var i := r * sh.size + c;
      i < sh.Cells() && sh.Row(i) == r && sh.Col(i) == c && sh.Box(i) == r / sh.boxSize * sh.boxSize + c / sh.boxSize
  {
    PairBelow(r, c, sh.size);
    DivModUnique(r * sh.size + c, sh.size, r, c);
  }

  ghost predicate Consistent(sh: Shape, b: Board)
    requires sh.Valid()
  {
    sh.IsBoard(b) && NoClash(sh, b)
  }

  /** No digit out of range and no two peers with the same digit. */
  ghost predicate NoClash(sh: Shape, b: Board)
    requires sh.Valid()
  {
    && (forall i :: 0 <= i < |b| ==> 0 <= b[i] <= sh.size)
    && (forall i, j :: 0 <= i < |b| && 0 <= j < |b| && sh.Peers(i, j) && b[i] != 0 ==> b[i] != b[j])
  }

  ghost predicate Full(b: Board) {
    forall i :: 0 <= i < |b| ==> b[i] != 0
  }

  /** g keeps every clue of b. */
  ghost predicate Extends(g: Board, b: Board) {
    && |g| == |b|
    && forall i :: 0 <= i < |b| && b[i] != 0 ==> g[i] == b[i]
  }

  ghost predicate IsCompletion(sh: Shape, g: Board, b: Board)
    requires sh.Valid()
  {
    Consistent(sh, g) && Full(g) && Extends(g, b)
  }

  // ------------------------------------------------------------------ the set of completions

  /** Every sequence of the given length over the digits 1..size. */
  ghost function Fillings(len: nat, size: nat): set<Board> {
    if len == 0 then {[]}
    else set g, v: int | g in Fillings(len - 1, size) && 1 <= v <= size && IsDigit(size, v) :: g + [v]
  }

  predicate IsDigit(size: nat, v: int) { 1 <= v <= size }

  lemma {:induction false} FillingsComplete(len: nat, size: nat, g: Board)
    ensures g in Fillings(len, size) <==> |g| == len && forall i :: 0 <= i < len ==> IsDigit(size, g[i])
  {
    if len != 0 {
      if |g| == len {
        var h, v := g[..len - 1], g[len - 1];
        assert g == h + [v];
        FillingsComplete(len - 1, size, h);
        if g in Fillings(len, size) {
          var h', v' :| h' in Fillings(len - 1, size) && IsDigit(size, v') && g == h' + [v'];
          FillingsComplete(len - 1, size, h');
          assert h == h';
        }
      } else if g in Fillings(len, size) {
        var h', v' :| h' in Fillings(len - 1, size) && IsDigit(size, v') && g == h' + [v'];
        FillingsComplete(len - 1, size, h');
      }
    }
  }

  /** All full valid grids extending b: the finite set whose size countSolutions bounds. */
  ghost function Completions(sh: Shape, b: Board): set<Board>
    requires sh.Valid()
  {
    set g | g in Fillings(sh.Cells(), sh.size) && IsCompletion(sh, g, b)
  }

  lemma CompletionsExact(sh: Shape, b: Board, g: Board)
    requires sh.Valid()
    ensures g in Completions(sh, b) <==> IsCompletion(sh, g, b)
  {
    FillingsComplete(sh.Cells(), sh.size, g);
  }

  /** Fixing one empty cell to v selects exactly the completions that hold v there. */
  lemma CompletionsWithValue(sh: Shape, b: Board, i: nat, v: int)
    requires sh.Valid() && sh.IsBoard(b) && i < |b| && b[i] == 0 && v != 0
    ensures Completions(sh, b[i := v]) == set g | g in Completions(sh, b) && g[i] == v
  {
    forall g | g in Completions(sh, b[i := v])
      ensures g in Completions(sh, b) && g[i] == v
    {
      assert g[i] == b[i := v][i];
    }
    forall g | g in Completions(sh, b) && g[i] == v
      ensures g in Completions(sh, b[i := v])
    {
    }
  }

  /** Removing clues only adds completions. */
  lemma CompletionsMonotone(sh: Shape, b: Board, fewer: Board)
    requires sh.Valid() && Extends(b, fewer)
    ensures Completions(sh, b) <= Completions(sh, fewer)
  {
    forall g | g in Completions(sh, b)
      ensures Extends(g, fewer)
    {
      forall i | 0 <= i < |fewer| && fewer[i] != 0 ensures g[i] == fewer[i] {
        assert b[i] == fewer[i];
      }
    }
  }

  /** The digits a cell may take: those no peer already holds. */
  ghost function Candidates(sh: Shape, b: Board, i: nat): set<nat>
    requires sh.Valid() && sh.IsBoard(b) && i < |b|
  {
    set v: nat | 1 <= v <= sh.size && Fits(sh, b, i, v)
  }

  ghost predicate Fits(sh: Shape, b: Board, i: nat, v: int)
    requires sh.Valid()
  {
    forall j :: 0 <= j < |b| && sh.Peers(i, j) ==> b[j] != v
  }

  lemma CompletionsUseCandidates(sh: Shape, b: Board, i: nat)
    requires sh.Valid() && sh.IsBoard(b) && i < |b| && b[i] == 0
    ensures forall g :: g in Completions(sh, b) ==> g[i] in Candidates(sh, b, i)
  {
    forall g | g in Completions(sh, b) ensures g[i] in Candidates(sh, b, i) {
      forall j | 0 <= j < |b| && sh.Peers(i, j) ensures b[j] != g[i] {
        assert b[j] != 0 ==> g[j] == b[j];
      }
      assert Fits(sh, b, i, g[i]);
    }
  }

  /** Placing a candidate in an empty cell keeps a board consistent. */
  lemma CandidateKeepsConsistent(sh: Shape, b: Board, i: nat, v: nat)
    requires sh.Valid() && Consistent(sh, b) && i < |b| && b[i] == 0
    requires v in Candidates(sh, b, i)
    ensures Consistent(sh, b[i := v])
  {
    var c := b[i := v];
    forall x, y | 0 <= x < |c| && 0 <= y < |c| && sh.Peers(x, y) && c[x] != 0 ensures c[x] != c[y] {
      assert sh.Peers(y, x);
    }
  }

  lemma FullBoardIsItsOnlyCompletion(sh: Shape, b: Board)
    requires sh.Valid() && Consistent(sh, b) && Full(b)
    ensures Completions(sh, b) == {b}
  {
    CompletionsExact(sh, b, b);
    forall g | g in Completions(sh, b) ensures g == b { }
  }

  // ------------------------------------------------------------------ counting cells

  ghost function Blanks(b: Board): set<int> { set i | 0 <= i < |b| && b[i] == 0 }

  ghost function Clues(b: Board): set<int> { set i | 0 <= i < |b| && b[i] != 0 }

  lemma FillOneBlank(b: Board, i: nat, v: int)
    requires i < |b| && b[i] == 0 && v != 0
    ensures Blanks(b[i := v]) == Blanks(b) - {i}
    ensures |Blanks(b[i := v])| == |Blanks(b)| - 1
  {
    assert Blanks(b[i := v]) == Blanks(b) - {i};
  }
}
