/** The conflict map the board is painted with, and what it means for winning. */
module SudokuConflicts {
  import opened Arith
  import opened SudokuGrid
  import opened SudokuGame

  /** Another cell of the same unit holds the same digit. */
  ghost predicate ClashIn(sh: Shape, kind: Kind, cells: Board, i: nat)
    requires sh.Valid() && i < |cells|
  {
    cells[i] != 0 &&
    exists j :: 0 <= j < |cells| && j != i && sh.Unit(kind, j) == sh.Unit(kind, i) && cells[j] == cells[i]
  }

  /** A distinct peer holds the same digit. */
  ghost predicate Clashes(sh: Shape, cells: Board, i: nat)
    requires sh.Valid() && i < |cells|
  {
    cells[i] != 0 && exists j :: 0 <= j < |cells| && sh.Peers(i, j) && cells[j] == cells[i]
  }

  lemma ClashesByUnit(sh: Shape, cells: Board, i: nat)
    requires sh.Valid() && i < |cells|
    ensures Clashes(sh, cells, i) <==>
      ClashIn(sh, RowUnit, cells, i) || ClashIn(sh, ColUnit, cells, i) || ClashIn(sh, BoxUnit, cells, i)
  {
    if ClashIn(sh, RowUnit, cells, i) {
      var j :| 0 <= j < |cells| && j != i && sh.Unit(RowUnit, j) == sh.Unit(RowUnit, i) && cells[j] == cells[i];
      assert sh.Peers(i, j);
    }
    if ClashIn(sh, ColUnit, cells, i) {
      var j :| 0 <= j < |cells| && j != i && sh.Unit(ColUnit, j) == sh.Unit(ColUnit, i) && cells[j] == cells[i];
      assert sh.Peers(i, j);
    }
    if ClashIn(sh, BoxUnit, cells, i) {
      var j :| 0 <= j < |cells| && j != i && sh.Unit(BoxUnit, j) == sh.Unit(BoxUnit, i) && cells[j] == cells[i];
      assert sh.Peers(i, j);
    }
    if Clashes(sh, cells, i) {
      var j :| 0 <= j < |cells| && sh.Peers(i, j) && cells[j] == cells[i];
      assert sh.Unit(RowUnit, j) == sh.Unit(RowUnit, i) || sh.Unit(ColUnit, j) == sh.Unit(ColUnit, i) ||
        sh.Unit(BoxUnit, j) == sh.Unit(BoxUnit, i);
    }
  }

  // ------------------------------------------------------------------ duplicates in one list of cells

  ghost predicate DupIn(cells: Board, indices: seq<nat>, i: nat)
    requires forall x :: x in indices ==> x < |cells|
  {
    i in indices && cells[i] != 0 && exists j :: j in indices && j != i && cells[j] == cells[i]
  }

  lemma DupInSnoc(cells: Board, before: seq<nat>, idx: nat, i: nat)
    requires forall x :: x in before ==> x < |cells|
    requires idx < |cells| && idx !in before && i < |cells|
    ensures DupIn(cells, before + [idx], i) <==>
      || DupIn(cells, before, i)
      || (i == idx && cells[idx] != 0 && exists j :: j in before && cells[j] == cells[idx])
      || (i in before && cells[i] != 0 && cells[i] == cells[idx])
  {
    var after := before + [idx];
    if DupIn(cells, after, i) {
      var j :| j in after && j != i && cells[j] == cells[i];
      assert j in before || j == idx;
    }
    if DupIn(cells, before, i) {
      var j :| j in before && j != i && cells[j] == cells[i];
      assert j in after;
    }
    if i == idx && exists j :: j in before && cells[j] == cells[idx] {
      var j :| j in before && cells[j] == cells[idx];
      assert j in after;
    }
    if i in before && cells[i] == cells[idx] { assert idx in after; }
  }

  lemma DupInSnocForAll(cells: Board, before: seq<nat>, idx: nat)
    requires forall x :: x in before ==> x < |cells|
    requires idx < |cells| && idx !in before
    ensures forall i :: 0 <= i < |cells| ==> (DupIn(cells, before + [idx], i) <==>
      || DupIn(cells, before, i)
      || (i == idx && cells[idx] != 0 && exists j :: j in before && cells[j] == cells[idx])
      || (i in before && cells[i] != 0 && cells[i] == cells[idx]))
  {
    forall i | 0 <= i < |cells| ensures DupIn(cells, before + [idx], i) <==>
      || DupIn(cells, before, i)
      || (i == idx && cells[idx] != 0 && exists j :: j in before && cells[j] == cells[idx])
      || (i in before && cells[i] != 0 && cells[i] == cells[idx])
    {
      DupInSnoc(cells, before, idx, i);
    }
  }

  /** Marks every cell of the list that shares its digit with another cell of the list. */
  method MarkDup(cells: Board, indices: seq<nat>, out: array<bool>)
    requires out.Length == |cells| && forall x :: x in indices ==> x < |cells|
    requires forall a, b :: 0 <= a < b < |indices| ==> indices[a] != indices[b]
    modifies out
    ensures forall i :: 0 <= i < |cells| ==> out[i] == (old(out[i]) || DupIn(cells, indices, i))
  {
    var seen: map<int, nat> := map[];
    assert indices[..0] == [];
    for t := 0 to |indices|
      invariant forall x :: x in indices[..t] ==> x < |cells|
      invariant forall v :: v in seen ==> seen[v] in indices[..t] && cells[seen[v]] == v != 0
      invariant forall j :: j in indices[..t] && cells[j] != 0 ==> cells[j] in seen
      invariant forall i :: 0 <= i < |cells| ==> out[i] == (old(out[i]) || DupIn(cells, indices[..t], i))
      invariant forall j :: j in indices[..t] && cells[j] != 0 && j != seen[cells[j]] ==> DupIn(cells, indices[..t], j)
    {
      var idx := indices[t];
      ghost var before := indices[..t];
      assert indices[..t + 1] == before + [idx];
      assert idx in indices && idx !in before;
      DupInSnocForAll(cells, before, idx);
      var v := cells[idx];
      if v == 0 { continue; }
      if v !in seen {
        seen := seen[v := idx];
        continue;
      }
      var first := seen[v];
      out[idx] := true;
      out[first] := true;
    }
    assert indices[..|indices|] == indices;
  }

  // ------------------------------------------------------------------ the cells of a unit

  ghost predicate Lists(sh: Shape, kind: Kind, u: nat, indices: seq<nat>)
    requires sh.Valid()
  {
    && (forall i :: i in indices <==> 0 <= i < sh.Cells() && sh.Unit(kind, i) == u)
    && forall a, b :: 0 <= a < b < |indices| ==> indices[a] != indices[b]
  }

  lemma DupInUnit(sh: Shape, kind: Kind, u: nat, indices: seq<nat>, cells: Board, i: nat)
    requires sh.Valid() && sh.IsBoard(cells) && i < |cells| && Lists(sh, kind, u, indices)
    ensures DupIn(cells, indices, i) <==> sh.Unit(kind, i) == u && ClashIn(sh, kind, cells, i)
  {
  }

  /** Cell (r, c) and back. */
  lemma CellAt(sh: Shape, r: nat, c: nat)
    requires sh.Valid() && r < sh.size && c < sh.size
    ensures r * sh.size + c < sh.Cells()
    ensures sh.Row(r * sh.size + c) == r && sh.Col(r * sh.size + c) == c
  {
    PairBelow(r, c, sh.size);
    DivModUnique(r * sh.size + c, sh.size, r, c);
  }

  lemma CellIs(sh: Shape, i: nat)
    requires sh.Valid() && i < sh.Cells()
    ensures i == sh.Row(i) * sh.size + sh.Col(i) && sh.Row(i) < sh.size && sh.Col(i) < sh.size
  {
    UnitsInRange(sh, i);
    DivMod(i, sh.size);
  }

  method RowIndices(sh: Shape, r: nat) returns (indices: seq<nat>)
    requires sh.Valid() && r < sh.size
    ensures Lists(sh, RowUnit, r, indices)
  {
    indices := seq(sh.size, c requires 0 <= c < sh.size => r * sh.size + c);
    forall i: nat | i < sh.Cells() && sh.Row(i) == r ensures i in indices {
      CellIs(sh, i);
      assert indices[sh.Col(i)] == i;
    }
    forall c: nat | c < |indices|
      ensures indices[c] < sh.Cells() && sh.Row(indices[c]) == r && sh.Col(indices[c]) == c
    {
      CellAt(sh, r, c);
    }
  }

  method ColIndices(sh: Shape, c: nat) returns (indices: seq<nat>)
    requires sh.Valid() && c < sh.size
    ensures Lists(sh, ColUnit, c, indices)
  {
    indices := seq(sh.size, r requires 0 <= r < sh.size => r * sh.size + c);
    forall i: nat | i < sh.Cells() && sh.Col(i) == c ensures i in indices {
      CellIs(sh, i);
      assert indices[sh.Row(i)] == i;
    }
    forall r: nat | r < |indices|
      ensures indices[r] < sh.Cells() && sh.Col(indices[r]) == c && sh.Row(indices[r]) == r
    {
      CellAt(sh, r, c);
    }
  }

  method BoxIndices(sh: Shape, br: nat, bc: nat) returns (indices: seq<nat>)
    requires sh.Valid() && br < sh.boxSize && bc < sh.boxSize
    ensures Lists(sh, BoxUnit, br * sh.boxSize + bc, indices)
  {
    var n, bs := sh.size, sh.boxSize;
    indices := [];
    for r := 0 to bs
      invariant ListsBefore(sh, br, bc, r, 0, indices)
    {
      for c := 0 to bs
        invariant ListsBefore(sh, br, bc, r, c, indices)
      {
        var rr := br * bs + r;
        var cc := bc * bs + c;
        var x := rr * n + cc;
        PlaceAt(sh, br, bc, r, c, rr, cc, x);
        AppendCell(sh, br, bc, r, c, x, indices);
        indices := indices + [x];
      }
      NextBoxRow(sh, br, bc, r, indices);
    }
    WholeBox(sh, br, bc, indices);
  }

  ghost predicate ListsBefore(sh: Shape, br: nat, bc: nat, r: nat, c: nat, indices: seq<nat>)
    requires sh.Valid()
  {
    && (forall i :: i in indices <==> InBoxBefore(sh, br, bc, i, r, c))
    && forall a, b :: 0 <= a < b < |indices| ==> indices[a] != indices[b]
  }

  lemma AppendCell(sh: Shape, br: nat, bc: nat, r: nat, c: nat, x: nat, indices: seq<nat>)
    requires sh.Valid() && IsPlace(sh, br, bc, x, r, c) && ListsBefore(sh, br, bc, r, c, indices)
    ensures ListsBefore(sh, br, bc, r, c + 1, indices + [x])
  {
    forall i: nat ensures i in indices + [x] <==> InBoxBefore(sh, br, bc, i, r, c + 1) {
      PlaceUnique(sh, br, bc, x, i, r, c);
    }
    forall a | 0 <= a < |indices| ensures indices[a] != x {
      assert indices[a] in indices;
    }
  }

  lemma NextBoxRow(sh: Shape, br: nat, bc: nat, r: nat, indices: seq<nat>)
    requires sh.Valid() && ListsBefore(sh, br, bc, r, sh.boxSize, indices)
    ensures ListsBefore(sh, br, bc, r + 1, 0, indices)
  {
    forall i: nat ensures InBoxBefore(sh, br, bc, i, r + 1, 0) <==> InBoxBefore(sh, br, bc, i, r, sh.boxSize) {
      OffsetsBelow(sh, i);
    }
  }

  lemma WholeBox(sh: Shape, br: nat, bc: nat, indices: seq<nat>)
    requires sh.Valid() && br < sh.boxSize && bc < sh.boxSize && ListsBefore(sh, br, bc, sh.boxSize, 0, indices)
    ensures Lists(sh, BoxUnit, br * sh.boxSize + bc, indices)
  {
    forall i: nat
      ensures InBoxBefore(sh, br, bc, i, sh.boxSize, 0) <==> i < sh.Cells() && sh.Box(i) == br * sh.boxSize + bc
    {
      OffsetsBelow(sh, i);
      BoxSplit(sh, br, bc, i);
    }
  }

  /** Cell i lies in box (br, bc), before place (r, c) in reading order within the box. */
  ghost predicate InBoxBefore(sh: Shape, br: nat, bc: nat, i: nat, r: nat, c: nat)
    requires sh.Valid()
  {
    && i < sh.Cells()
    && sh.Row(i) / sh.boxSize == br && sh.Col(i) / sh.boxSize == bc
    && (sh.Row(i) % sh.boxSize < r || (sh.Row(i) % sh.boxSize == r && sh.Col(i) % sh.boxSize < c))
  }

  /** Cell i is at place (r, c) of box (br, bc). */
  ghost predicate IsPlace(sh: Shape, br: nat, bc: nat, i: nat, r: nat, c: nat)
    requires sh.Valid()
  {
    && i < sh.Cells()
    && sh.Row(i) / sh.boxSize == br && sh.Col(i) / sh.boxSize == bc
    && sh.Row(i) % sh.boxSize == r && sh.Col(i) % sh.boxSize == c
  }

  lemma PlaceUnique(sh: Shape, br: nat, bc: nat, x: nat, y: nat, r: nat, c: nat)
    requires sh.Valid() && IsPlace(sh, br, bc, x, r, c)
    ensures IsPlace(sh, br, bc, y, r, c) <==> y == x
  {
    if IsPlace(sh, br, bc, y, r, c) {
      EqualParts(sh.Row(x), sh.Row(y), sh.boxSize);
      EqualParts(sh.Col(x), sh.Col(y), sh.boxSize);
      EqualParts(x, y, sh.size);
    }
  }

  lemma PlaceAt(sh: Shape, br: nat, bc: nat, r: nat, c: nat, rr: nat, cc: nat, x: nat)
    requires sh.Valid() && br < sh.boxSize && bc < sh.boxSize && r < sh.boxSize && c < sh.boxSize
    requires rr == br * sh.boxSize + r && cc == bc * sh.boxSize + c && x == rr * sh.size + cc
    ensures IsPlace(sh, br, bc, x, r, c)
  {
    BlockCell(sh.boxSize, sh.size, br, r);
    BlockCell(sh.boxSize, sh.size, bc, c);
    PairBelow(rr, cc, sh.size);
    BlockCoord(x, sh.size, rr, cc);
  }

  lemma OffsetsBelow(sh: Shape, i: nat)
    requires sh.Valid()
    ensures sh.Row(i) % sh.boxSize < sh.boxSize && sh.Col(i) % sh.boxSize < sh.boxSize
  {
    DivMod(sh.Row(i), sh.boxSize);
    DivMod(sh.Col(i), sh.boxSize);
  }

  lemma BoxSplit(sh: Shape, br: nat, bc: nat, i: nat)
    requires sh.Valid() && br < sh.boxSize && bc < sh.boxSize
    ensures i < sh.Cells() ==>
      (sh.Box(i) == br * sh.boxSize + bc <==> sh.Row(i) / sh.boxSize == br && sh.Col(i) / sh.boxSize == bc)
  {
    if i < sh.Cells() {
      UnitsInRange(sh, i);
      SameBlock(sh.boxSize, sh.Row(i), sh.Col(i), br, bc);
    }
  }

  // ------------------------------------------------------------------ the map

  /** Marks a cell iff a distinct peer holds the same digit. */
  method ConflictMap(sh: Shape, cells: Board) returns (out: array<bool>)
    requires sh.Valid() && sh.IsBoard(cells)
    ensures fresh(out) && out.Length == |cells|
    ensures forall i :: 0 <= i < |cells| ==> out[i] == Clashes(sh, cells, i)
  {
    var n := sh.size;
    out := new bool[n * n](_ => false);
    for r := 0 to n
      invariant forall i :: 0 <= i < |cells| ==> out[i] == ClashSoFar(sh, cells, i, r, 0, 0)
    {
      var indices := RowIndices(sh, r);
      NextRow(sh, cells, r, indices);
      MarkDup(cells, indices, out);
    }
    for c := 0 to n
      invariant forall i :: 0 <= i < |cells| ==> out[i] == ClashSoFar(sh, cells, i, n, c, 0)
    {
      var indices := ColIndices(sh, c);
      NextCol(sh, cells, n, c, indices);
      MarkDup(cells, indices, out);
    }
    MarkBoxes(sh, cells, out);
    AllUnitsSeen(sh, cells);
  }

  method MarkBoxes(sh: Shape, cells: Board, out: array<bool>)
    requires sh.Valid() && sh.IsBoard(cells) && out.Length == |cells|
    requires forall i :: 0 <= i < |cells| ==> out[i] == ClashSoFar(sh, cells, i, sh.size, sh.size, 0)
    modifies out
    ensures forall i :: 0 <= i < |cells| ==> out[i] == ClashSoFar(sh, cells, i, sh.size, sh.size, sh.size)
  {
    var n, bs := sh.size, sh.boxSize;
    for br := 0 to bs
      invariant forall i :: 0 <= i < |cells| ==> out[i] == ClashSoFar(sh, cells, i, n, n, br * bs)
    {
      for bc := 0 to bs
        invariant forall i :: 0 <= i < |cells| ==> out[i] == ClashSoFar(sh, cells, i, n, n, br * bs + bc)
      {
        var indices := BoxIndices(sh, br, bc);
        NextBox(sh, cells, n, br * bs + bc, indices);
        MarkDup(cells, indices, out);
      }
      assert br * bs + bs == (br + 1) * bs;
    }
  }

  lemma NextRow(sh: Shape, cells: Board, r: nat, indices: seq<nat>)
    requires sh.Valid() && sh.IsBoard(cells) && Lists(sh, RowUnit, r, indices)
    ensures forall i :: 0 <= i < |cells| ==>
      (ClashSoFar(sh, cells, i, r + 1, 0, 0) <==> ClashSoFar(sh, cells, i, r, 0, 0) || DupIn(cells, indices, i))
  {
    forall i | 0 <= i < |cells|
      ensures ClashSoFar(sh, cells, i, r + 1, 0, 0) <==> ClashSoFar(sh, cells, i, r, 0, 0) || DupIn(cells, indices, i)
    {
      DupInUnit(sh, RowUnit, r, indices, cells, i);
    }
  }

  lemma NextCol(sh: Shape, cells: Board, n: nat, c: nat, indices: seq<nat>)
    requires sh.Valid() && sh.IsBoard(cells) && Lists(sh, ColUnit, c, indices)
    ensures forall i :: 0 <= i < |cells| ==>
      (ClashSoFar(sh, cells, i, n, c + 1, 0) <==> ClashSoFar(sh, cells, i, n, c, 0) || DupIn(cells, indices, i))
  {
    forall i | 0 <= i < |cells|
      ensures ClashSoFar(sh, cells, i, n, c + 1, 0) <==> ClashSoFar(sh, cells, i, n, c, 0) || DupIn(cells, indices, i)
    {
      DupInUnit(sh, ColUnit, c, indices, cells, i);
    }
  }

  lemma NextBox(sh: Shape, cells: Board, n: nat, b: nat, indices: seq<nat>)
    requires sh.Valid() && sh.IsBoard(cells) && Lists(sh, BoxUnit, b, indices)
    ensures forall i :: 0 <= i < |cells| ==>
      (ClashSoFar(sh, cells, i, n, n, b + 1) <==> ClashSoFar(sh, cells, i, n, n, b) || DupIn(cells, indices, i))
  {
    forall i | 0 <= i < |cells|
      ensures ClashSoFar(sh, cells, i, n, n, b + 1) <==> ClashSoFar(sh, cells, i, n, n, b) || DupIn(cells, indices, i)
    {
      DupInUnit(sh, BoxUnit, b, indices, cells, i);
    }
  }

  lemma AllUnitsSeen(sh: Shape, cells: Board)
    requires sh.Valid() && sh.IsBoard(cells)
    ensures forall i :: 0 <= i < |cells| ==>
      (ClashSoFar(sh, cells, i, sh.size, sh.size, sh.size) <==> Clashes(sh, cells, i))
  {
    forall i | 0 <= i < |cells| ensures ClashSoFar(sh, cells, i, sh.size, sh.size, sh.size) <==> Clashes(sh, cells, i) {
      UnitsInRange(sh, i);
      ClashesByUnit(sh, cells, i);
    }
  }

  /** A clash in one of the first r rows, c columns or b boxes. */
  ghost predicate ClashSoFar(sh: Shape, cells: Board, i: nat, r: nat, c: nat, b: nat)
    requires sh.Valid() && i < |cells|
  {
    || (sh.Row(i) < r && ClashIn(sh, RowUnit, cells, i))
    || (sh.Col(i) < c && ClashIn(sh, ColUnit, cells, i))
    || (sh.Box(i) < b && ClashIn(sh, BoxUnit, cells, i))
  }

  lemma NoClashIffNothingMarked(sh: Shape, cells: Board)
    requires sh.Valid() && forall i :: 0 <= i < |cells| ==> 0 <= cells[i] <= sh.size
    ensures NoClash(sh, cells) <==> forall i :: 0 <= i < |cells| ==> !Clashes(sh, cells, i)
  {
    if !NoClash(sh, cells) {
      var i, j :| 0 <= i < |cells| && 0 <= j < |cells| && sh.Peers(i, j) && cells[i] != 0 && cells[i] == cells[j];
      assert Clashes(sh, cells, i);
    }
  }

  /** In every reachable game: a full board with nothing marked is exactly a solved one. */
  lemma SolvedIffFullAndUnmarked(p: Play)
    requires Sound(p)
    ensures p.IsSolved() <==> Full(p.cells) && forall i :: 0 <= i < |p.cells| ==> !Clashes(p.sh, p.cells, i)
  {
    SolvedIffFullAndClashFree(p);
    SoundPage(p);
    NoClashIffNothingMarked(p.sh, p.cells);
  }
}
