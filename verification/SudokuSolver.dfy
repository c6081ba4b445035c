/**
  The backtracking solver: initMasks, place and unplace, the fewest-candidates
  choice, solveOne and countSolutions, all on one board and mask table that are
  updated in place and put back on every way out.
 */
module SudokuSolver {
  import opened Options
  import opened Bits
  import opened SudokuGrid
  import opened SudokuMasks
  import opened Shuffling
  import opened SudokuPaths

  // ------------------------------------------------------------------ masks of a board

  /** Null iff the board has a digit out of range or two equal peers. */
  method InitMasks(sh: Shape, board: array<int>) returns (m: Masks?)
    requires sh.Valid() && board.Length == sh.Cells()
    ensures m == null <==> !Consistent(sh, board[..])
    ensures m != null ==> fresh(m.row) && fresh(m.col) && fresh(m.box) && m.Exact(sh, board[..])
  {
    var t := new Masks(sh.size);
    assert t.Exact(sh, board[..0]) by {
      forall v: nat | v < 32 ensures !Has(0, v) { HasNone(v); }
    }
    for i := 0 to board.Length
      invariant t.Exact(sh, board[..i]) && NoClash(sh, board[..i])
    {
      var v := board[i];
      ghost var before, after := board[..i], board[..i + 1];
      assert after == before + [v];
      UnitsInRange(sh, i);
      var r, c, b := sh.Row(i), sh.Col(i), sh.Box(i);
      if v == 0 {
        AppendToAll(sh, t, before, 0);
        continue;
      }
      if v < 1 || v > sh.size {
        assert board[..][i] == v;
        return null;
      }
      if Has(t.row[r], v) {
        ClashInUnit(sh, RowUnit, board[..], i);
        return null;
      }
      if Has(t.col[c], v) {
        ClashInUnit(sh, ColUnit, board[..], i);
        return null;
      }
      if Has(t.box[b], v) {
        ClashInUnit(sh, BoxUnit, board[..], i);
        return null;
      }
      assert NoClash(sh, after) by { NoClashAfterAppend(sh, before, v); }
      AppendToAll(sh, t, before, v);
      SetBit(t.row, r, v);
      SetBit(t.col, c, v);
      SetBit(t.box, b, v);
    }
    assert board[..board.Length] == board[..];
    m := t;
  }

  lemma AppendToAll(sh: Shape, t: Masks, b: Board, v: nat)
    requires sh.Valid() && t.Exact(sh, b) && |b| < sh.Cells() && v <= sh.size
    requires sh.Row(|b|) < sh.size && sh.Col(|b|) < sh.size && sh.Box(|b|) < sh.size
    ensures v == 0 ==> t.Exact(sh, b + [v])
    ensures v != 0 ==>
      && UnitMasksExact(sh, RowUnit, WithBit(t.row[..], sh.Row(|b|), v), b + [v])
      && UnitMasksExact(sh, ColUnit, WithBit(t.col[..], sh.Col(|b|), v), b + [v])
      && UnitMasksExact(sh, BoxUnit, WithBit(t.box[..], sh.Box(|b|), v), b + [v])
  {
    ExactAfterAppend(sh, RowUnit, t.row[..], b, v);
    ExactAfterAppend(sh, ColUnit, t.col[..], b, v);
    ExactAfterAppend(sh, BoxUnit, t.box[..], b, v);
  }

  lemma ClashInUnit(sh: Shape, kind: Kind, b: Board, i: nat)
    requires sh.Valid() && i < |b| && b[i] != 0 && Held(sh, kind, b[..i], sh.Unit(kind, i), b[i])
    ensures !NoClash(sh, b)
  {
    var j :| 0 <= j < i && sh.Unit(kind, j) == sh.Unit(kind, i) && b[..i][j] == b[i];
    assert sh.Peers(i, j) && b[j] == b[i];
  }

  lemma NoClashAfterAppend(sh: Shape, b: Board, v: nat)
    requires sh.Valid() && NoClash(sh, b) && 1 <= v <= sh.size
    requires !Held(sh, RowUnit, b, sh.Row(|b|), v)
    requires !Held(sh, ColUnit, b, sh.Col(|b|), v)
    requires !Held(sh, BoxUnit, b, sh.Box(|b|), v)
    ensures NoClash(sh, b + [v])
  {
    var i, c := |b|, b + [v];
    forall j | 0 <= j < i && sh.Peers(i, j) ensures b[j] != v {
      assert sh.Unit(RowUnit, j) == sh.Row(i) || sh.Unit(ColUnit, j) == sh.Col(i) || sh.Unit(BoxUnit, j) == sh.Box(i);
    }
    forall x, y | 0 <= x < |c| && 0 <= y < |c| && sh.Peers(x, y) && c[x] != 0 ensures c[x] != c[y] {
      assert sh.Peers(y, x);
    }
  }

  /** The cells are not stored in any of the mask arrays. */
  ghost predicate Apart(board: array<int>, m: Masks) {
    board as object != m.row && board as object != m.col && board as object != m.box
  }

  /** The board a search works on, its masks, and the masks' agreement with it. */
  ghost predicate InStep(sh: Shape, board: array<int>, m: Masks)
    requires sh.Valid()
    reads board, m.row, m.col, m.box
  {
    Apart(board, m) && Consistent(sh, board[..]) && m.Exact(sh, board[..])
  }

  method SetBit(a: array<Mask>, u: nat, v: nat)
    requires u < a.Length && v < 32
    modifies a
    ensures a[..] == WithBit(old(a[..]), u, v)
  {
    a[u] := Or(a[u], Bit(v));
  }

  method ClearBit(a: array<Mask>, u: nat, v: nat)
    requires u < a.Length && v < 32
    modifies a
    ensures a[..] == WithoutBit(old(a[..]), u, v)
  {
    a[u] := And(a[u], Not(Bit(v)));
  }

  /** The four writes of `place`: the cell and one bit in each of its units' masks. */
  method Place(sh: Shape, board: array<int>, m: Masks, idx: nat, v: nat)
    requires sh.Valid() && idx < board.Length == sh.Cells() && v < 32 && m.Sized(sh.size) && Apart(board, m)
    modifies board, m.row, m.col, m.box
    ensures InUnits(sh, idx)
    ensures board[..] == old(board[..])[idx := v]
    ensures m.row[..] == WithBit(old(m.row[..]), sh.Row(idx), v)
    ensures m.col[..] == WithBit(old(m.col[..]), sh.Col(idx), v)
    ensures m.box[..] == WithBit(old(m.box[..]), sh.Box(idx), v)
  {
    UnitsInRange(sh, idx);
    board[idx] := v;
    SetBit(m.row, sh.Row(idx), v);
    SetBit(m.col, sh.Col(idx), v);
    SetBit(m.box, sh.Box(idx), v);
  }

  method Unplace(sh: Shape, board: array<int>, m: Masks, idx: nat, v: nat)
    requires sh.Valid() && idx < board.Length == sh.Cells() && v < 32 && m.Sized(sh.size) && Apart(board, m)
    modifies board, m.row, m.col, m.box
    ensures InUnits(sh, idx)
    ensures board[..] == old(board[..])[idx := 0]
    ensures m.row[..] == WithoutBit(old(m.row[..]), sh.Row(idx), v)
    ensures m.col[..] == WithoutBit(old(m.col[..]), sh.Col(idx), v)
    ensures m.box[..] == WithoutBit(old(m.box[..]), sh.Box(idx), v)
  {
    UnitsInRange(sh, idx);
    board[idx] := 0;
    ClearBit(m.row, sh.Row(idx), v);
    ClearBit(m.col, sh.Col(idx), v);
    ClearBit(m.box, sh.Box(idx), v);
  }

  predicate InUnits(sh: Shape, idx: nat)
    requires sh.Valid()
  {
    sh.Row(idx) < sh.size && sh.Col(idx) < sh.size && sh.Box(idx) < sh.size
  }

  lemma CandidateNotHeld(sh: Shape, kind: Kind, b: Board, idx: nat, v: nat)
    requires sh.Valid() && sh.IsBoard(b) && idx < |b| && b[idx] == 0
    ensures v in Candidates(sh, b, idx) ==> !Held(sh, kind, b, sh.Unit(kind, idx), v)
  {
    if 1 <= v && Held(sh, kind, b, sh.Unit(kind, idx), v) {
      var j :| 0 <= j < |b| && sh.Unit(kind, j) == sh.Unit(kind, idx) && b[j] == v;
      assert sh.Peers(idx, j);
    }
  }

  /** Clearing a bit that was clear before it was set gives the old masks back. */
  lemma UnplaceUndoesPlace(sh: Shape, kind: Kind, masks: seq<Mask>, b: Board, idx: nat, v: nat)
    requires sh.Valid() && UnitMasksExact(sh, kind, masks, b)
    requires sh.IsBoard(b) && idx < |b| && b[idx] == 0 && v in Candidates(sh, b, idx)
    ensures sh.Unit(kind, idx) < sh.size
    ensures WithoutBit(WithBit(masks, sh.Unit(kind, idx), v), sh.Unit(kind, idx), v) == masks
  {
    UnitsInRange(sh, idx);
    var u := sh.Unit(kind, idx);
    CandidateNotHeld(sh, kind, b, idx, v);
    SetThenClear(masks[u], v);
  }

  // ------------------------------------------------------------------ the fewest-candidates choice

  datatype Choice = DeadEnd | Solved | Branch(idx: nat, mask: Mask)

  /** What a choice on board b says, in terms of the cells' legal digits. */
  ghost predicate ChoiceRight(sh: Shape, b: Board, ch: Choice)
    requires sh.Valid() && sh.IsBoard(b)
  {
    match ch
    case DeadEnd => exists i :: 0 <= i < |b| && b[i] == 0 && Candidates(sh, b, i) == {}
    case Solved => Full(b)
    case Branch(idx, mask) =>
      && idx < |b| && b[idx] == 0
      && BitsOf(mask) == Candidates(sh, b, idx) != {}
      && (forall i :: 0 <= i < idx && b[i] == 0 ==> |Candidates(sh, b, i)| > |Candidates(sh, b, idx)|)
      && (|Candidates(sh, b, idx)| == 1
          || forall i :: idx < i < |b| && b[i] == 0 ==> |Candidates(sh, b, i)| >= |Candidates(sh, b, idx)|)
  }

  /** The scan so far: no blank cell below n, or the first of those with the fewest candidates, more than one. */
  ghost predicate BestSoFar(sh: Shape, b: Board, n: nat, best: int, mask: Mask, count: nat)
    requires sh.Valid() && sh.IsBoard(b) && n <= |b|
  {
    if best == -1 then count == 999 && forall j :: 0 <= j < n ==> b[j] != 0
    else
      && 0 <= best < n && b[best] == 0 && BitsOf(mask) == Candidates(sh, b, best)
      && count == |Candidates(sh, b, best)| > 1
      && (forall j :: 0 <= j < best && b[j] == 0 ==> |Candidates(sh, b, j)| > count)
      && (forall j :: best < j < n && b[j] == 0 ==> |Candidates(sh, b, j)| >= count)
  }

  /** The scan at the top of both searches. */
  method ChooseCell(sh: Shape, board: array<int>, m: Masks) returns (ch: Choice)
    requires sh.Valid() && InStep(sh, board, m)
    ensures ChoiceRight(sh, board[..], ch)
  {
    ghost var b := board[..];
    assert sh.IsBoard(b);
    hide Candidates, BitsOf, Consistent, BestSoFar, ChoiceRight;
    var bestIdx, bestMask := -1, 0;
    var bestCount: nat := 999;
    NothingSeen(sh, b);
    for i := 0 to board.Length
      invariant BestSoFar(sh, b, i, bestIdx, bestMask, bestCount)
    {
      if board[i] != 0 {
        SkipFilled(sh, b, i, bestIdx, bestMask, bestCount);
        continue;
      }
      var mask := m.CandidateMask(sh, i);
      m.CandidateMaskExact(sh, b, i);
      var count := PopCount(mask);
      CandidateCountBelow(sh, b, i);
      if count == 0 {
        NoCandidates(sh, b, i, mask);
        return DeadEnd;
      }
      SeeBlank(sh, b, i, bestIdx, bestMask, bestCount, mask);
      if count < bestCount {
        bestCount, bestIdx, bestMask := count, i, mask;
        if count == 1 { return Branch(i, mask); }
      }
    }
    ScanEnds(sh, b, bestIdx, bestMask, bestCount);
    if bestIdx == -1 { return Solved; }
    return Branch(bestIdx, bestMask);
  }

  lemma NothingSeen(sh: Shape, b: Board)
    requires sh.Valid() && sh.IsBoard(b)
    ensures BestSoFar(sh, b, 0, -1, 0, 999)
  {
  }

  lemma SkipFilled(sh: Shape, b: Board, i: nat, best: int, mask: Mask, count: nat)
    requires sh.Valid() && sh.IsBoard(b) && i < |b| && b[i] != 0 && BestSoFar(sh, b, i, best, mask, count)
    ensures BestSoFar(sh, b, i + 1, best, mask, count)
  {
    hide Candidates, BitsOf;
  }

  lemma NoCandidates(sh: Shape, b: Board, i: nat, mask: Mask)
    requires sh.Valid() && sh.IsBoard(b) && i < |b| && b[i] == 0
    requires BitsOf(mask) == Candidates(sh, b, i) && |BitsOf(mask)| == 0
    ensures ChoiceRight(sh, b, DeadEnd)
  {
    hide Candidates, BitsOf;
    assert Candidates(sh, b, i) == {};
  }

  /** One more blank cell: it becomes the best, ends the scan with its only candidate, or changes nothing. */
  lemma SeeBlank(sh: Shape, b: Board, i: nat, best: int, bestMask: Mask, bestCount: nat, mask: Mask)
    requires sh.Valid() && sh.IsBoard(b) && i < |b| && b[i] == 0 && BestSoFar(sh, b, i, best, bestMask, bestCount)
    requires BitsOf(mask) == Candidates(sh, b, i) && 0 < |BitsOf(mask)| < 999
    ensures var count := |BitsOf(mask)|;
      if count >= bestCount then BestSoFar(sh, b, i + 1, best, bestMask, bestCount)
      else if count == 1 then ChoiceRight(sh, b, Branch(i, mask))
      else BestSoFar(sh, b, i + 1, i, mask, count)
  {
    hide Candidates, BitsOf;
  }

  lemma ScanEnds(sh: Shape, b: Board, best: int, mask: Mask, count: nat)
    requires sh.Valid() && sh.IsBoard(b) && BestSoFar(sh, b, |b|, best, mask, count)
    ensures best == -1 || 0 <= best < |b|
    ensures ChoiceRight(sh, b, if best == -1 then Solved else Branch(best, mask))
  {
    hide Candidates, BitsOf;
  }

  lemma CandidateCountBelow(sh: Shape, b: Board, i: nat)
    requires sh.Valid() && sh.IsBoard(b) && i < |b|
    ensures |Candidates(sh, b, i)| < 999
  {
    UpTo(Candidates(sh, b, i), sh.size);
  }

  lemma {:induction false} UpTo(s: set<nat>, n: nat)
    requires forall v :: v in s ==> 1 <= v <= n
    ensures |s| <= n
  {
    if n == 0 {
      assert s == {};
    } else {
      UpTo(s - {n}, n - 1);
    }
  }

  // ------------------------------------------------------------------ completions of a branch

  /** Filling one cell with a candidate: board and masks stay in step. */
  lemma InStepAfterPlace(sh: Shape, rows: seq<Mask>, cols: seq<Mask>, boxes: seq<Mask>, b: Board, idx: nat, v: nat)
    requires sh.Valid() && Consistent(sh, b) && idx < |b| && b[idx] == 0 && v in Candidates(sh, b, idx)
    requires UnitMasksExact(sh, RowUnit, rows, b) && UnitMasksExact(sh, ColUnit, cols, b) &&
      UnitMasksExact(sh, BoxUnit, boxes, b)
    ensures InUnits(sh, idx)
    ensures Consistent(sh, b[idx := v])
    ensures UnitMasksExact(sh, RowUnit, WithBit(rows, sh.Row(idx), v), b[idx := v])
    ensures UnitMasksExact(sh, ColUnit, WithBit(cols, sh.Col(idx), v), b[idx := v])
    ensures UnitMasksExact(sh, BoxUnit, WithBit(boxes, sh.Box(idx), v), b[idx := v])
    ensures b[idx := v][idx := 0] == b
    ensures WithoutBit(WithBit(rows, sh.Row(idx), v), sh.Row(idx), v) == rows
    ensures WithoutBit(WithBit(cols, sh.Col(idx), v), sh.Col(idx), v) == cols
    ensures WithoutBit(WithBit(boxes, sh.Box(idx), v), sh.Box(idx), v) == boxes
  {
    UnitsInRange(sh, idx);
    CandidateKeepsConsistent(sh, b, idx, v);
    ExactAfterPlace(sh, RowUnit, rows, b, idx, v);
    ExactAfterPlace(sh, ColUnit, cols, b, idx, v);
    ExactAfterPlace(sh, BoxUnit, boxes, b, idx, v);
    UnplaceUndoesPlace(sh, RowUnit, rows, b, idx, v);
    UnplaceUndoesPlace(sh, ColUnit, cols, b, idx, v);
    UnplaceUndoesPlace(sh, BoxUnit, boxes, b, idx, v);
  }

  lemma DeadEndHasNoCompletion(sh: Shape, b: Board, i: nat)
    requires sh.Valid() && sh.IsBoard(b) && i < |b| && b[i] == 0
    requires Candidates(sh, b, i) == {}
    ensures Completions(sh, b) == {}
  {
    CompletionsUseCandidates(sh, b, i);
  }

  lemma NonCandidateHasNoCompletion(sh: Shape, b: Board, i: nat, v: nat)
    requires sh.Valid() && sh.IsBoard(b) && i < |b| && b[i] == 0 && v != 0
    requires v !in Candidates(sh, b, i)
    ensures Completions(sh, b[i := v]) == {}
  {
    CompletionsUseCandidates(sh, b, i);
    CompletionsWithValue(sh, b, i, v);
  }

  /** The completions whose value at cell i is below v: what the loop has counted before trying v. */
  ghost function Below(sh: Shape, b: Board, i: nat, v: nat): set<Board>
    requires sh.Valid() && sh.IsBoard(b) && i < |b|
  {
    set g | g in Completions(sh, b) && g[i] < v
  }

  lemma BelowEnds(sh: Shape, b: Board, i: nat)
    requires sh.Valid() && sh.IsBoard(b) && i < |b|
    ensures Below(sh, b, i, 1) == {} && Below(sh, b, i, sh.size + 1) == Completions(sh, b)
  {
  }

  /** The branches of a cell split its completions disjointly. */
  lemma BelowNext(sh: Shape, b: Board, i: nat, v: nat)
    requires sh.Valid() && sh.IsBoard(b) && i < |b| && b[i] == 0 && v != 0
    ensures |Below(sh, b, i, v + 1)| == |Below(sh, b, i, v)| + |Completions(sh, b[i := v])|
    ensures |Below(sh, b, i, v)| <= |Completions(sh, b)|
  {
    CompletionsWithValue(sh, b, i, v);
    var here := Completions(sh, b[i := v]);
    assert Below(sh, b, i, v + 1) == Below(sh, b, i, v) + here;
    assert Below(sh, b, i, v) !! here;
    SubsetSize(Below(sh, b, i, v), Completions(sh, b));
  }

  lemma SubsetSize<T>(a: set<T>, b: set<T>)
    requires a <= b
    ensures |a| <= |b|
  {
    assert b == a + (b - a);
  }

  // ------------------------------------------------------------------ countSolutions

  /** The count reached after adding n solutions to found with the given limit. */
  function Capped(found: nat, n: nat, limit: int): nat {
    if found >= limit then found else if found + n >= limit then limit else found + n
  }

  /** The variables countSolutions' inner search closes over. */
  class SolutionCounter {
    const sh: Shape
    const limit: int
    const working: array<int>
    const masks: Masks
    var found: nat

    constructor (sh: Shape, limit: int, working: array<int>, masks: Masks)
      ensures this.sh == sh && this.limit == limit && this.working == working && this.masks == masks && found == 0
    {
      this.sh, this.limit, this.working, this.masks, this.found := sh, limit, working, masks, 0;
    }

    /** Adds the completions of the working board, up to the limit, and puts board and masks back. */
    method Search()
      requires sh.Valid() && InStep(sh, working, masks)
      modifies this, working, masks.row, masks.col, masks.box
      ensures found == Capped(old(found), |Completions(sh, old(working[..]))|, limit)
      ensures working[..] == old(working[..])
      ensures masks.row[..] == old(masks.row[..]) && masks.col[..] == old(masks.col[..]) &&
        masks.box[..] == old(masks.box[..])
      decreases |Blanks(working[..])|
    {
      hide IsCompletion, Fillings, NoClash, UnitMasksExact;
      if found >= limit { return; }
      ghost var b, before := working[..], found;
      var ch := ChooseCell(sh, working, masks);
      match ch {
        case DeadEnd =>
          ghost var i :| 0 <= i < |b| && b[i] == 0 && Candidates(sh, b, i) == {};
          DeadEndHasNoCompletion(sh, b, i);
          return;
        case Solved =>
          FullBoardIsItsOnlyCompletion(sh, b);
          found := found + 1;
          return;
        case Branch(idx, mask) =>
          BelowEnds(sh, b, idx);
          for v := 1 to sh.size + 1
            invariant working[..] == b
            invariant masks.row[..] == old(masks.row[..]) && masks.col[..] == old(masks.col[..]) &&
              masks.box[..] == old(masks.box[..])
            invariant found < limit && found == before + |Below(sh, b, idx, v)|
          {
            BelowNext(sh, b, idx, v);
            if !Has(mask, v) {
              assert v !in BitsOf(mask);
              NonCandidateHasNoCompletion(sh, b, idx, v);
              continue;
            }
            assert v in BitsOf(mask);
            InStepAfterPlace(sh, masks.row[..], masks.col[..], masks.box[..], b, idx, v);
            FillOneBlank(b, idx, v);
            BelowNext(sh, b, idx, v + 1);
            Place(sh, working, masks, idx, v);
            Search();
            Unplace(sh, working, masks, idx, v);
            if found >= limit { return; }
          }
      }
    }
  }

  /** The number of completions of a board, exactly, up to a limit. */
  method CountSolutions(board: array<int>, sh: Shape, limit: int) returns (found: nat)
    requires sh.Valid() && board.Length == sh.Cells()
    ensures found == Capped(0, |Completions(sh, board[..])|, limit)
    ensures found == if limit <= 0 then 0 else if |Completions(sh, board[..])| < limit then |Completions(sh,
      board[..])| else limit
  {
    var working := new int[board.Length](i requires 0 <= i < board.Length reads board => board[i]);
    assert working[..] == board[..];
    var masks := InitMasks(sh, working);
    OnlyConsistentBoardsComplete(sh, board[..]);
    if masks == null { return 0; }
    var counter := new SolutionCounter(sh, limit, working, masks);
    counter.Search();
    found := counter.found;
  }

  lemma OnlyConsistentBoardsComplete(sh: Shape, b: Board)
    requires sh.Valid() && sh.IsBoard(b)
    ensures Completions(sh, b) != {} ==> Consistent(sh, b)
  {
    if g :| g in Completions(sh, b) {
      forall i | 0 <= i < |b| ensures 0 <= b[i] <= sh.size {
        assert 0 <= g[i] <= sh.size;
      }
      forall i, j | 0 <= i < |b| && 0 <= j < |b| && sh.Peers(i, j) && b[i] != 0 ensures b[i] != b[j] {
        assert g[i] == b[i] && (b[j] != 0 ==> g[j] == b[j]);
      }
    }
  }

  // ------------------------------------------------------------------ solveOne

  /** The order in which a search tries the digits of a set. */
  ghost function Order(digits: set<nat>, size: nat, randomize: bool, draws: nat -> nat, at: nat): seq<nat> {
    var list := Ascending(digits, size);
    if randomize then Shuffled(list, draws, at) else list
  }

  /** The values of a mask, in increasing order or shuffled. */
  method BranchValues(mask: Mask, size: nat, randomize: bool, rng: Random) returns (order: seq<nat>)
    requires size < 32
    modifies rng`next
    ensures order == Order(BitsOf(mask), size, randomize, rng.draws, old(rng.next))
    ensures forall v :: v in order <==> 1 <= v <= size && v in BitsOf(mask)
    ensures forall i, j :: 0 <= i < j < |order| ==> order[i] != order[j]
    ensures rng.next == old(rng.next) + if randomize && order != [] then |order| - 1 else 0
  {
    hide Shuffled, Ascending;
    var list := MaskToValues(mask, size);
    AscendingIs(BitsOf(mask), size, list);
    if !randomize { return list; }
    var values := new nat[|list|](i requires 0 <= i < |list| => list[i]);
    assert values[..] == list;
    ShuffleInPlace(values, rng);
    order := values[..];
    SamePermutation(list, order);
  }

  lemma SamePermutation<T>(a: seq<T>, b: seq<T>)
    requires multiset(a) == multiset(b)
    requires forall i, j :: 0 <= i < j < |a| ==> a[i] != a[j]
    ensures forall x :: x in a <==> x in b
    ensures forall i, j :: 0 <= i < j < |b| ==> b[i] != b[j]
  {
    forall x ensures x in a <==> x in b {
      assert x in a <==> x in multiset(a);
      assert x in b <==> x in multiset(b);
    }
    forall i, j | 0 <= i < j < |b| ensures b[i] != b[j] {
      Twice(b, i, j);
      if b[i] == b[j] { AtMostOnce(a, b[i]); }
    }
  }

  lemma Twice<T>(s: seq<T>, i: nat, j: nat)
    requires i < j < |s|
    ensures s[i] == s[j] ==> multiset(s)[s[i]] >= 2
  {
    assert s == s[..j] + s[j..];
    assert s[..j][i] in multiset(s[..j]) && s[j..][0] in multiset(s[j..]);
  }

  lemma {:induction false} AtMostOnce<T>(s: seq<T>, x: T)
    requires forall i, j :: 0 <= i < j < |s| ==> s[i] != s[j]
    ensures multiset(s)[x] <= 1
  {
    if s != [] {
      AtMostOnce(s[1..], x);
      assert s == [s[0]] + s[1..];
      if x == s[0] { assert x !in s[1..]; }
    }
  }

  /** If the first choices lead to a full grid, the search has arrived there, with no more draws than they take. */
  ghost predicate Arrives(sh: Shape, b: Board, draws: nat -> nat, at: nat, solved: bool, now: Board, next: nat)
    requires sh.Valid() && sh.IsBoard(b)
  {
    Straight(sh, b, draws, at).Some? ==> solved && Straight(sh, b, draws, at) == Some(Arrival(now, next))
  }

  /** A board with a dead end has no first choice, or a cell without candidates for one. */
  lemma NoWayFrom(sh: Shape, b: Board, ch: Choice, draws: nat -> nat, at: nat)
    requires sh.Valid() && sh.IsBoard(b) && ch.DeadEnd? && ChoiceRight(sh, b, ch)
    ensures forall now, next, solved :: Arrives(sh, b, draws, at, solved, now, next)
  {
    hide Candidates, Straight, Ascending, FirstTried;
    FewestExists(sh, b);
    var i: nat :| FewestFirst(sh, b, i);
    var dead: nat :| dead < |b| && b[dead] == 0 && Candidates(sh, b, dead) == {};
    assert |Candidates(sh, b, i)| == 0;
    assert Ascending(Candidates(sh, b, i), sh.size) == [] by { NoneAscending(Candidates(sh, b, i), sh.size); }
    StraightStep(sh, b, i, draws, at);
  }

  lemma NoneAscending(s: set<nat>, n: nat)
    requires s == {}
    ensures Ascending(s, n) == []
  {
  }

  lemma ArrivedAt(sh: Shape, b: Board, draws: nat -> nat, at: nat)
    requires sh.Valid() && sh.IsBoard(b) && Full(b)
    ensures Arrives(sh, b, draws, at, true, b, at)
  {
    hide Straight;
    NowhereToGo(sh, b, draws, at);
  }

  /** The scan's cell is the one with the fewest candidates, unless there is a dead end behind it. */
  lemma ChosenIsFewest(sh: Shape, b: Board, ch: Choice, i: nat)
    requires sh.Valid() && sh.IsBoard(b) && ch.Branch? && ChoiceRight(sh, b, ch) && FewestFirst(sh, b, i)
    ensures i == ch.idx || Candidates(sh, b, i) == {}
  {
    hide Candidates, BitsOf;
    if Candidates(sh, b, i) != {} { assert |Candidates(sh, b, i)| >= 1; }
  }

  /** After the t-th branch: the first decides where the search arrives. */
  lemma FirstBranch(sh: Shape, b: Board, ch: Choice, order: seq<nat>, draws: nat -> nat, at: nat, t: nat, was: nat,
    solved: bool, now: Board, next: nat)
    requires sh.Valid() && sh.IsBoard(b) && ch.Branch? && ChoiceRight(sh, b, ch)
    requires order == Order(BitsOf(ch.mask), sh.size, true, draws, at) && t < |order| && order[t] > 0
    requires t == 0 ==> was == at + |order| - 1
    requires t > 0 ==> Straight(sh, b, draws, at) == None
    requires Arrives(sh, b[ch.idx := order[t]], draws, was, solved, now, next)
    ensures Arrives(sh, b, draws, at, solved, now, next)
    ensures !solved ==> Straight(sh, b, draws, at) == None
  {
    hide Candidates, Straight, Ascending, BitsOf, Shuffled;
    if t == 0 { WayByFirst(sh, b, ch, order, draws, at); }
  }

  lemma WayByFirst(sh: Shape, b: Board, ch: Choice, order: seq<nat>, draws: nat -> nat, at: nat)
    requires sh.Valid() && sh.IsBoard(b) && ch.Branch? && ChoiceRight(sh, b, ch)
    requires order == Order(BitsOf(ch.mask), sh.size, true, draws, at)
    ensures Straight(sh, b, draws, at) != None ==>
      order != [] && Straight(sh, b, draws, at) == Straight(sh, b[ch.idx := order[0]], draws, at + |order| - 1)
  {
    hide Candidates, Straight, Ascending, BitsOf, Shuffled;
    assert !Full(b);
    FewestExists(sh, b);
    var i: nat :| FewestFirst(sh, b, i);
    StraightStep(sh, b, i, draws, at);
    ChosenIsFewest(sh, b, ch, i);
    NoneAscending({}, sh.size);
  }

  lemma NoFirstBranch(sh: Shape, b: Board, ch: Choice, order: seq<nat>, draws: nat -> nat, at: nat, next: nat)
    requires sh.Valid() && sh.IsBoard(b) && ch.Branch? && ChoiceRight(sh, b, ch)
    requires order == Order(BitsOf(ch.mask), sh.size, true, draws, at)
    requires order != [] ==> Straight(sh, b, draws, at) == None
    ensures Arrives(sh, b, draws, at, false, b, next)
  {
    hide Candidates, Straight, Ascending, BitsOf, Shuffled, Order;
    WayByFirst(sh, b, ch, order, draws, at);
  }

  /** The inner search of solveOne: fills the board, or puts board and masks back. */
  method SolveSearch(sh: Shape, board: array<int>, m: Masks, randomize: bool, rng: Random) returns (solved: bool)
    requires sh.Valid() && InStep(sh, board, m)
    modifies board, m.row, m.col, m.box, rng`next
    ensures solved ==> IsCompletion(sh, board[..], old(board[..]))
    ensures !solved ==> Completions(sh, old(board[..])) == {}
    ensures !solved ==> board[..] == old(board[..])
    ensures !solved ==> m.row[..] == old(m.row[..]) && m.col[..] == old(m.col[..]) && m.box[..] == old(m.box[..])
    ensures randomize ==> Arrives(sh, old(board[..]), rng.draws, old(rng.next), solved, board[..], rng.next)
    decreases |Blanks(board[..])|
  {
    hide Candidates, BitsOf, Completions, UnitMasksExact, Blanks, Full, Extends, Arrives, Order;
    ghost var b := board[..];
    assert sh.IsBoard(b);
    var ch := ChooseCell(sh, board, m);
    match ch {
      case DeadEnd =>
        ghost var i :| 0 <= i < |b| && b[i] == 0 && Candidates(sh, b, i) == {};
        DeadEndHasNoCompletion(sh, b, i);
        NoWayFrom(sh, b, ch, rng.draws, rng.next);
        return false;
      case Solved =>
        FullIsCompletion(sh, b);
        ArrivedAt(sh, b, rng.draws, rng.next);
        return true;
      case Branch(idx, mask) =>
        ghost var at := rng.next;
        var order := BranchValues(mask, sh.size, randomize, rng);
        OrderIsCandidates(sh, b, idx, mask, order);
        for t := 0 to |order|
          invariant board[..] == b
          invariant m.row[..] == old(m.row[..]) && m.col[..] == old(m.col[..]) && m.box[..] == old(m.box[..])
          invariant forall s :: 0 <= s < t ==> Completions(sh, b[idx := order[s]]) == {}
          invariant t == 0 ==> rng.next == at + if randomize && order != [] then |order| - 1 else 0
          invariant t > 0 && randomize ==> Straight(sh, b, rng.draws, at) == None
        {
          var v := order[t];
          assert v in order;
          InStepAfterPlace(sh, m.row[..], m.col[..], m.box[..], b, idx, v);
          FillOneBlank(b, idx, v);
          Place(sh, board, m, idx, v);
          ghost var was := rng.next;
          solved := SolveSearch(sh, board, m, randomize, rng);
          if randomize { FirstBranch(sh, b, ch, order, rng.draws, at, t, was, solved, board[..], rng.next); }
          if solved {
            CompletesWithout(sh, board[..], b, idx, v);
            return true;
          }
          Unplace(sh, board, m, idx, v);
        }
        SomeBranchCompletes(sh, b, idx, order);
        if randomize { NoFirstBranch(sh, b, ch, order, rng.draws, at, rng.next); }
        return false;
    }
  }

  lemma OrderIsCandidates(sh: Shape, b: Board, i: nat, mask: Mask, order: seq<nat>)
    requires sh.Valid() && sh.IsBoard(b) && i < |b| && BitsOf(mask) == Candidates(sh, b, i)
    requires forall v :: v in order <==> 1 <= v <= sh.size && v in BitsOf(mask)
    ensures forall v: nat :: v in order <==> v in Candidates(sh, b, i)
  {
  }

  lemma FullIsCompletion(sh: Shape, b: Board)
    requires sh.Valid() && Consistent(sh, b) && Full(b)
    ensures IsCompletion(sh, b, b)
  {
  }

  lemma CompletesWithout(sh: Shape, g: Board, b: Board, i: nat, v: int)
    requires sh.Valid() && sh.IsBoard(b) && i < |b| && b[i] == 0 && IsCompletion(sh, g, b[i := v])
    ensures IsCompletion(sh, g, b)
  {
  }

  lemma SomeBranchCompletes(sh: Shape, b: Board, i: nat, order: seq<nat>)
    requires sh.Valid() && sh.IsBoard(b) && i < |b| && b[i] == 0
    requires forall v: nat :: v in order <==> v in Candidates(sh, b, i)
    ensures Completions(sh, b) != {} ==>
      exists s :: 0 <= s < |order| && Completions(sh, b[i := order[s]]) != {}
  {
    CompletionsUseCandidates(sh, b, i);
    if g :| g in Completions(sh, b) {
      var s :| 0 <= s < |order| && order[s] == g[i];
      CompletionsWithValue(sh, b, i, order[s]);
      assert g in Completions(sh, b[i := order[s]]);
    }
  }

  /** A completion of the board, or None exactly when there is none; the board itself is filled or left alone. */
  method SolveOne(board: array<int>, sh: Shape, randomize: bool, rng: Random) returns (r: Option<Board>)
    requires sh.Valid() && board.Length == sh.Cells()
    modifies board, rng`next
    ensures r.Some? ==> r.value in Completions(sh, old(board[..])) && board[..] == r.value
    ensures r.None? <==> Completions(sh, old(board[..])) == {}
    ensures r.None? ==> board[..] == old(board[..])
    ensures var way := Straight(sh, old(board[..]), rng.draws, old(rng.next));
      randomize && r.Some? && way.Some? ==> r.value == way.value.grid && rng.next == way.value.next
  {
    hide Straight;
    var masks := InitMasks(sh, board);
    OnlyConsistentBoardsComplete(sh, board[..]);
    if masks == null { return None; }
    var solved := SolveSearch(sh, board, masks, randomize, rng);
    if solved {
      CompletionsExact(sh, old(board[..]), board[..]);
      return Some(board[..]);
    }
    return None;
  }
}
