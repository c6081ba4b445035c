/**
  Puzzle generation: solve an empty board at random, then remove clues in random
  order as long as the solution stays unique.
 */
module SudokuGenerator {
  import opened Options
  import opened Arith
  import opened SudokuGrid
  import opened SudokuSolver
  import opened Shuffling
  import opened SudokuPaths

  // ------------------------------------------------------------------ a filled grid exists

  /** The shifted-rows grid: row k*R + a starts k*a + R places further on. */
  function CanonicalDigit(sh: Shape, i: nat): int
    requires sh.Valid()
  {
    (RowOffset(sh, sh.Row(i)) + sh.Col(i)) % sh.size + 1
  }

  function CanonicalGrid(sh: Shape): Board
    requires sh.Valid()
  {
    seq(sh.Cells(), i requires 0 <= i => CanonicalDigit(sh, i))
  }

  /** The offset of row r: a permutation of 0..size-1. */
  lemma RowOffsetsDiffer(sh: Shape, r: nat, r': nat)
    requires sh.Valid() && r < sh.size && r' < sh.size && r != r'
    ensures RowOffset(sh, r) < sh.size
    ensures RowOffset(sh, r) != RowOffset(sh, r')
  {
    SwappedDigitsDiffer(sh.boxSize, r, r');
  }

  function RowOffset(sh: Shape, r: nat): nat
    requires sh.Valid()
  {
    sh.boxSize * (r % sh.boxSize) + r / sh.boxSize
  }

  lemma RowsDiffer(sh: Shape, i: nat, j: nat)
    requires sh.Valid() && i < sh.Cells() && j < sh.Cells() && i != j && sh.Row(i) == sh.Row(j)
    ensures CanonicalDigit(sh, i) != CanonicalDigit(sh, j)
  {
    DivMod(i, sh.size);
    DivMod(j, sh.size);
    ShiftsDiffer(sh.size, RowOffset(sh, sh.Row(i)), sh.Col(i), sh.Col(j));
  }

  lemma ColsDiffer(sh: Shape, i: nat, j: nat)
    requires sh.Valid() && i < sh.Cells() && j < sh.Cells() && i != j && sh.Col(i) == sh.Col(j)
    ensures CanonicalDigit(sh, i) != CanonicalDigit(sh, j)
  {
    UnitsInRange(sh, i);
    UnitsInRange(sh, j);
    DivMod(i, sh.size);
    DivMod(j, sh.size);
    RowOffsetsDiffer(sh, sh.Row(i), sh.Row(j));
    RowOffsetsDiffer(sh, sh.Row(j), sh.Row(i));
    ShiftsDiffer(sh.size, sh.Col(i), RowOffset(sh, sh.Row(i)), RowOffset(sh, sh.Row(j)));
  }

  lemma BoxesDiffer(sh: Shape, i: nat, j: nat)
    requires sh.Valid() && i < sh.Cells() && j < sh.Cells() && i != j && sh.Box(i) == sh.Box(j)
    ensures CanonicalDigit(sh, i) != CanonicalDigit(sh, j)
  {
    UnitsInRange(sh, i);
    UnitsInRange(sh, j);
    DivMod(i, sh.size);
    DivMod(j, sh.size);
    SameBlockDiffers(sh.boxSize, sh.size, sh.Row(i), sh.Col(i), sh.Row(j), sh.Col(j));
  }

  ghost function Empty(sh: Shape): Board { seq(sh.Cells(), _ => 0) }

  /** An empty board always has a completion, so the first solve of a generation never fails. */
  lemma EmptyBoardCompletes(sh: Shape)
    requires sh.Valid()
    ensures CanonicalGrid(sh) in Completions(sh, Empty(sh))
  {
    var g := CanonicalGrid(sh);
    forall i, j | 0 <= i < |g| && 0 <= j < |g| && sh.Peers(i, j) ensures g[i] != g[j] {
      if sh.Row(i) == sh.Row(j) {
        RowsDiffer(sh, i, j);
      } else if sh.Col(i) == sh.Col(j) {
        ColsDiffer(sh, i, j);
      } else {
        BoxesDiffer(sh, i, j);
      }
    }
    forall i | 0 <= i < |g| ensures 1 <= g[i] <= sh.size {
      DivMod(RowOffset(sh, sh.Row(i)) + sh.Col(i), sh.size);
    }
    CompletionsExact(sh, Empty(sh), g);
  }

  // ------------------------------------------------------------------ unique and irreducible puzzles

  /** Blanking the clue at i would leave more than one solution. */
  ghost predicate Necessary(sh: Shape, p: Board, i: nat)
    requires sh.Valid() && i < |p|
  {
    |Completions(sh, p[i := 0])| >= 2
  }

  ghost predicate Irreducible(sh: Shape, p: Board)
    requires sh.Valid()
  {
    forall i :: 0 <= i < |p| && p[i] != 0 ==> Necessary(sh, p, i)
  }

  /** Once necessary, always necessary: removing more clues only adds solutions. */
  lemma StaysNecessary(sh: Shape, p: Board, j: nat, i: nat)
    requires sh.Valid() && j < |p| && i < |p| && Necessary(sh, p, i)
    ensures Necessary(sh, p[j := 0], i)
  {
    CompletionsMonotone(sh, p[i := 0], p[j := 0][i := 0]);
    SubsetSize(Completions(sh, p[i := 0]), Completions(sh, p[j := 0][i := 0]));
  }

  lemma SolutionStays(sh: Shape, p: Board, solved: Board, j: nat)
    requires sh.Valid() && j < |p| && Completions(sh, p) == {solved}
    ensures solved in Completions(sh, p[j := 0])
    ensures |Completions(sh, p[j := 0])| >= 1
    ensures |Completions(sh, p[j := 0])| == 1 ==> Completions(sh, p[j := 0]) == {solved}
  {
    CompletionsMonotone(sh, p, p[j := 0]);
    assert solved in Completions(sh, p);
    OnlyMember(Completions(sh, p[j := 0]), solved);
  }

  lemma OnlyMember<T>(s: set<T>, x: T)
    requires x in s
    ensures |s| >= 1
    ensures |s| == 1 ==> s == {x}
  {
    assert s == {x} + (s - {x});
  }

  // ------------------------------------------------------------------ carving

  /** The carving loop of one attempt. */
  method Carve(sh: Shape, solved: Board, removalTarget: int, rng: Random) returns (puzzle: Board, removed: nat)
    requires sh.Valid() && Consistent(sh, solved) && Full(solved)
    modifies rng`next
    ensures Completions(sh, puzzle) == {solved}
    ensures removed == |Blanks(puzzle)| && (removed == 0 || removed <= removalTarget)
    ensures removed < removalTarget ==> Irreducible(sh, puzzle)
    ensures BlankedInOrder(sh, solved, puzzle, Shuffled(InOrder(|solved|), rng.draws, old(rng.next)), removalTarget)
  {
    hide Necessary, Shuffled, CarvedSoFar, BlankedInOrder, Blanks, Consistent, Irreducible, Completions;
    var work := new int[|solved|](i requires 0 <= i < |solved| => solved[i]);
    assert work[..] == solved;
    removed := 0;
    var indices := ShuffledIndices(|solved|, rng);
    StartCarving(sh, solved, indices, removalTarget);
    ghost var seen := 0;
    for t := 0 to |indices|
      invariant seen == t && CarvedSoFar(sh, solved, work[..], indices, t, removalTarget, removed)
    {
      if removed >= removalTarget { break; }
      seen := seen + 1;
      var idx := indices[t];
      assert idx in indices;
      ghost var p := work[..];
      if work[idx] == 0 {
        CarveNext(sh, solved, p, indices, t, removalTarget, removed, false);
        continue;
      }
      SoleCompletion(sh, solved, p, indices, t, removalTarget, removed);
      var blanked := TryBlank(sh, work, solved, idx);
      CarveNext(sh, solved, p, indices, t, removalTarget, removed, blanked);
      if blanked { removed := removed + 1; }
    }
    EndCarving(sh, solved, work[..], indices, seen, removalTarget, removed);
    puzzle := work[..];
  }

  /** What holds after t cells of the order. */
  ghost predicate CarvedSoFar(sh: Shape, solved: Board, p: Board, order: seq<nat>, t: nat, target: int, removed: nat)
    requires sh.Valid()
  {
    && t <= |order| && Distinct(order) && (forall i :: i in order <==> 0 <= i < |solved|)
    && Consistent(sh, solved) && Full(solved) && |p| == |solved| && Completions(sh, p) == {solved}
    && removed == |Blanks(p)| && (removed == 0 || removed <= target)
    && NecessarySoFar(sh, p, order[..t]) && WentInOrder(sh, solved, p, order, t, target)
  }

  predicate Distinct(order: seq<nat>) { forall i, j :: 0 <= i < j < |order| ==> order[i] != order[j] }

  lemma StartCarving(sh: Shape, solved: Board, order: seq<nat>, target: int)
    requires sh.Valid() && Consistent(sh, solved) && Full(solved)
    requires Distinct(order) && (forall i :: i in order <==> 0 <= i < |solved|)
    ensures CarvedSoFar(sh, solved, solved, order, 0, target, 0)
  {
    hide Completions, Blanks, Consistent, WentInOrder;
    FullBoardIsItsOnlyCompletion(sh, solved);
    StartInOrder(sh, solved, order, target);
  }

  lemma SoleCompletion(sh: Shape, solved: Board, p: Board, order: seq<nat>, t: nat, target: int, removed: nat)
    requires sh.Valid() && CarvedSoFar(sh, solved, p, order, t, target, removed)
    ensures |p| == sh.Cells() && Completions(sh, p) == {solved}
  {
    hide Completions, Blanks, WentInOrder, NecessarySoFar;
  }

  lemma CarveNext(sh: Shape, solved: Board, p: Board, order: seq<nat>, t: nat, target: int, removed: nat, blanked: bool)
    requires sh.Valid() && CarvedSoFar(sh, solved, p, order, t, target, removed) && t < |order| && removed < target
    requires order[t] < |p|
    requires blanked ==> p[order[t]] != 0 && Completions(sh, p[order[t] := 0]) == {solved}
    requires !blanked ==> p[order[t]] == 0 || Necessary(sh, p, order[t])
    ensures CarvedSoFar(sh, solved, if blanked then p[order[t] := 0] else p, order, t + 1, target,
              if blanked then removed + 1 else removed)
  {
    hide Completions, Blanks, Consistent, WentInOrder, Necessary;
    var i := order[t];
    assert order[..t + 1] == order[..t] + [i];
    assert i !in order[..t];
    NextInOrder(sh, solved, p, order, t, target, if blanked then p[i := 0] else p);
    if blanked {
      BlankOneClue(p, i);
      StillNecessarySoFar(sh, p, i, order[..t]);
    }
  }

  lemma EndCarving(sh: Shape, solved: Board, p: Board, order: seq<nat>, t: nat, target: int, removed: nat)
    requires sh.Valid() && CarvedSoFar(sh, solved, p, order, t, target, removed)
    requires t == |order| || removed >= target
    ensures Completions(sh, p) == {solved}
    ensures removed == |Blanks(p)| && (removed == 0 || removed <= target)
    ensures removed < target ==> Irreducible(sh, p)
    ensures BlankedInOrder(sh, solved, p, order, target)
  {
    hide Completions, Blanks, Consistent, WentInOrder, BlankedInOrder, Necessary;
    EndInOrder(sh, solved, p, order, t, target);
    if removed < target { assert order[..t] == order; }
  }

  /** A board with the given cells blanked. */
  function BlankAt(b: Board, cells: seq<nat>): (c: Board)
    ensures |c| == |b| && forall i :: 0 <= i < |b| ==> c[i] == if i in cells then 0 else b[i]
  {
    seq(|b|, i requires 0 <= i < |b| => if i in cells then 0 else b[i])
  }

  /** These cells can all be blanked: the solution stays the only one. */
  ghost predicate CanAllGo(sh: Shape, solved: Board, cells: seq<nat>)
    requires sh.Valid()
  {
    Completions(sh, BlankAt(solved, cells)) == {solved}
  }

  ghost predicate AllBlank(p: Board, cells: seq<nat>) { forall i :: i in cells && i < |p| ==> p[i] == 0 }

  /** The first k cells of the order, up to the target, are blank if they can all go together. */
  ghost predicate BlankedInOrder(sh: Shape, solved: Board, p: Board, order: seq<nat>, target: int)
    requires sh.Valid()
  {
    forall k: nat :: k <= |order| && k <= target && CanAllGo(sh, solved, order[..k]) ==> AllBlank(p, order[..k])
  }

  /** So it is after t cells of the order, and nothing else is blank if these t could all go. */
  ghost predicate WentInOrder(sh: Shape, solved: Board, p: Board, order: seq<nat>, t: nat, target: int)
    requires sh.Valid() && t <= |order|
  {
    && (forall k: nat :: k <= t && k <= target && CanAllGo(sh, solved, order[..k]) ==> AllBlank(p, order[..k]))
    && (t <= target && CanAllGo(sh, solved, order[..t]) ==> p == BlankAt(solved, order[..t]))
  }

  lemma FewerCanGo(sh: Shape, solved: Board, order: seq<nat>, k: nat, t: nat)
    requires sh.Valid() && Consistent(sh, solved) && Full(solved)
    requires k <= t <= |order| && CanAllGo(sh, solved, order[..t])
    ensures CanAllGo(sh, solved, order[..k])
  {
    CompletionsMonotone(sh, BlankAt(solved, order[..k]), BlankAt(solved, order[..t]));
    CompletionsExact(sh, BlankAt(solved, order[..k]), solved);
  }

  /** One more cell: blanked, blank already, or necessary. */
  lemma NextInOrder(sh: Shape, solved: Board, p: Board, order: seq<nat>, t: nat, target: int, now: Board)
    requires sh.Valid() && Consistent(sh, solved) && Full(solved)
    requires t < |order| && order[t] < |p| == |solved| && WentInOrder(sh, solved, p, order, t, target) &&
      order[t] !in order[..t]
    requires now == p[order[t] := 0] || (now == p && Necessary(sh, p, order[t])) || (now == p && p[order[t]] == 0)
    ensures WentInOrder(sh, solved, now, order, t + 1, target)
  {
    hide Completions, Consistent;
    var i, next := order[t], order[..t + 1];
    assert next == order[..t] + [i];
    if t + 1 <= target && CanAllGo(sh, solved, next) {
      FewerCanGo(sh, solved, order, t, t + 1);
      assert p == BlankAt(solved, order[..t]) && p[i] != 0;
      assert p[i := 0] == BlankAt(solved, next);
      assert |Completions(sh, p[i := 0])| == 1;
      assert now == p[i := 0];
    }
  }

  lemma StartInOrder(sh: Shape, solved: Board, order: seq<nat>, target: int)
    requires sh.Valid() && Full(solved)
    ensures |Blanks(solved)| == 0 && WentInOrder(sh, solved, solved, order, 0, target)
  {
    assert Blanks(solved) == {} && order[..0] == [] && BlankAt(solved, []) == solved;
  }

  /** At the end, all cells have been seen, or enough are blank: then no longer start of the order is asked for. */
  lemma EndInOrder(sh: Shape, solved: Board, p: Board, order: seq<nat>, t: nat, target: int)
    requires sh.Valid() && Consistent(sh, solved) && Full(solved)
    requires t <= |order| && WentInOrder(sh, solved, p, order, t, target) && (t == |order| || |Blanks(p)| >= target)
    requires (forall i :: i in order ==> i < |solved|) && Distinct(order)
    ensures BlankedInOrder(sh, solved, p, order, target)
  {
    hide Completions, Consistent, Blanks;
    forall k: nat | k <= |order| && k <= target && CanAllGo(sh, solved, order[..k]) ensures AllBlank(p, order[..k]) {
      if t < k {
        FewerCanGo(sh, solved, order, t, k);
        BlanksOfStart(solved, order, t);
      }
    }
  }

  lemma {:induction false} BlanksOfStart(solved: Board, order: seq<nat>, t: nat)
    requires Full(solved) && t <= |order| && Distinct(order) && forall i :: i in order ==> i < |solved|
    ensures |Blanks(BlankAt(solved, order[..t]))| == t
  {
    if t == 0 {
      assert Blanks(BlankAt(solved, order[..0])) == {};
    } else {
      var before, i := BlankAt(solved, order[..t - 1]), order[t - 1];
      assert order[..t] == order[..t - 1] + [i] && i in order;
      BlanksOfStart(solved, order, t - 1);
      BlankOneClue(before, i);
      assert before[i := 0] == BlankAt(solved, order[..t]);
    }
  }

  /** Blanks one clue if the solution stays unique; otherwise puts it back, and it is necessary. */
  method TryBlank(sh: Shape, work: array<int>, ghost solved: Board, idx: nat) returns (blanked: bool)
    requires sh.Valid() && Completions(sh, work[..]) == {solved}
    requires idx < work.Length == sh.Cells() && work[idx] != 0
    modifies work
    ensures blanked ==> work[..] == old(work[..])[idx := 0] && Completions(sh, work[..]) == {solved}
    ensures !blanked ==> work[..] == old(work[..]) && Necessary(sh, work[..], idx)
  {
    ghost var p := work[..];
    SolutionStays(sh, p, solved, idx);
    var prev := work[idx];
    work[idx] := 0;
    assert work[..] == p[idx := 0];
    var solutions := CountSolutions(work, sh, 2);
    blanked := solutions == 1;
    if !blanked {
      work[idx] := prev;
      assert work[..] == p;
    }
  }

  function InOrder(n: nat): seq<nat> { seq(n, i => i) }

  /** Every cell index once, in random order. */
  method ShuffledIndices(n: nat, rng: Random) returns (order: seq<nat>)
    modifies rng`next
    ensures order == Shuffled(InOrder(n), rng.draws, old(rng.next))
    ensures forall i :: i in order <==> 0 <= i < n
    ensures forall i, j :: 0 <= i < j < |order| ==> order[i] != order[j]
  {
    hide Shuffled;
    var indices := new nat[n](i => i);
    ghost var inOrder := indices[..];
    assert inOrder == InOrder(n);
    ShuffleInPlace(indices, rng);
    order := indices[..];
    SamePermutation(inOrder, order);
    forall i: nat | i < n ensures i in inOrder { assert inOrder[i] == i; }
  }

  /** Every clue among the cells tried so far is necessary. */
  ghost predicate NecessarySoFar(sh: Shape, p: Board, tried: seq<nat>)
    requires sh.Valid()
  {
    forall i :: i in tried && i < |p| && p[i] != 0 ==> Necessary(sh, p, i)
  }

  lemma StillNecessarySoFar(sh: Shape, p: Board, idx: nat, tried: seq<nat>)
    requires sh.Valid() && idx < |p| && NecessarySoFar(sh, p, tried)
    ensures NecessarySoFar(sh, p[idx := 0], tried + [idx])
  {
    forall i | i in tried && i < |p| && p[idx := 0][i] != 0 ensures Necessary(sh, p[idx := 0], i) {
      StaysNecessary(sh, p, idx, i);
    }
  }

  lemma BlankOneClue(p: Board, i: nat)
    requires i < |p| && p[i] != 0
    ensures |Blanks(p[i := 0])| == |Blanks(p)| + 1
  {
    assert Blanks(p[i := 0]) == Blanks(p) + {i};
  }

  // ------------------------------------------------------------------ generateSudokuPuzzle

  datatype Difficulty = Easy | Normal | Hard | Expert

  /** The sizes the interface offers: 4 and 9. */
  predicate Offered(sh: Shape) { sh == Shape(4, 2) || sh == Shape(9, 3) }

  function ClueTarget(size: nat, d: Difficulty): int
    requires size == 4 || size == 9
  {
    if size == 4 then
      match d case Easy => 12 case Normal => 10 case Hard => 8 case Expert => 6
    else
      match d case Easy => 40 case Normal => 34 case Hard => 28 case Expert => 24
  }

  /** The clue targets: harder puzzles have fewer clues. */
  lemma ClueTargets()
    ensures ClueTarget(4, Easy) == 12 && ClueTarget(4, Normal) == 10 && ClueTarget(4, Hard) == 8 &&
      ClueTarget(4, Expert) == 6
    ensures ClueTarget(9, Easy) == 40 && ClueTarget(9, Normal) == 34 && ClueTarget(9, Hard) == 28
    ensures ClueTarget(9, Expert) == 24 && Offered(Shape(4, 2)) && Offered(Shape(9, 3))
  {
  }

  datatype Puzzle = Puzzle(puzzle: Board, solution: Board)

  lemma BlanksAndCluesOfSnoc(b: Board, v: int)
    ensures Blanks(b + [v]) == if v == 0 then Blanks(b) + {|b|} else Blanks(b)
    ensures Clues(b + [v]) == if v == 0 then Clues(b) else Clues(b) + {|b|}
  {
  }

  lemma {:induction false} CluesAndBlanks(b: Board)
    ensures |Clues(b)| + |Blanks(b)| == |b|
  {
    if b == [] {
      assert Clues(b) == {} && Blanks(b) == {};
    } else {
      var init, v := b[..|b| - 1], b[|b| - 1];
      CluesAndBlanks(init);
      BlanksAndCluesOfSnoc(init, v);
      assert b == init + [v];
    }
  }

  /** What one attempt delivers. */
  ghost predicate CarvedWell(sh: Shape, puzzle: Board, solution: Board, removed: nat, removalTarget: int)
    requires sh.Valid()
  {
    && sh.IsBoard(puzzle) && Completions(sh, puzzle) == {solution}
    && removed == |Blanks(puzzle)| && (removed == 0 || removed <= removalTarget)
    && (removed < removalTarget ==> Irreducible(sh, puzzle))
  }

  /**
    How an attempt follows its draws, if its first choices lead to a full grid: that
    grid, carved in shuffled order.
   */
  ghost predicate Follows(sh: Shape, target: int, draws: nat -> nat, at: nat, c: Carving)
    requires sh.Valid()
  {
    var way := Straight(sh, Empty(sh), draws, at);
    way.Some? ==>
      && c.solution == way.value.grid
      && BlankedInOrder(sh, c.solution, c.puzzle, Shuffled(InOrder(|c.solution|), draws, way.value.next), target)
  }

  /** Solve an empty board, then carve it.  Solving cannot fail. */
  method Attempt(sh: Shape, removalTarget: int, rng: Random) returns (puzzle: Board, solved: Board, removed: nat)
    requires sh.Valid()
    modifies rng`next
    ensures CarvedWell(sh, puzzle, solved, removed, removalTarget)
    ensures Follows(sh, removalTarget, rng.draws, old(rng.next), Carving(puzzle, solved, removed))
  {
    hide Straight, Shuffled, BlankedInOrder, Irreducible, Blanks, Completions;
    var empty := new int[sh.Cells()](_ => 0);
    ghost var blank := empty[..];
    assert blank == Empty(sh);
    var r := SolveOne(empty, sh, true, rng);
    EmptyBoardCompletes(sh);
    solved := r.value;
    CompletionsExact(sh, blank, solved);
    puzzle, removed := Carve(sh, solved, removalTarget, rng);
    CompletionsExact(sh, puzzle, solved);
    assert solved in Completions(sh, puzzle);
  }

  /** One attempt as the caller sees it. */
  datatype Carving = Carving(puzzle: Board, solution: Board, removed: nat)
  {
    ghost predicate Well(sh: Shape, removalTarget: int)
      requires sh.Valid()
    {
      CarvedWell(sh, puzzle, solution, removed, removalTarget)
    }
  }

  /**
    The attempts behind a result: at most six, all well carved, none but the last
    reaching the target, and the loop going on to the sixth unless the last did.
   */
  ghost predicate AttemptsBehind(sh: Shape, attempts: seq<Carving>, removalTarget: int)
    requires sh.Valid()
  {
    && 1 <= |attempts| <= 6
    && (forall k :: 0 <= k < |attempts| ==> attempts[k].Well(sh, removalTarget))
    && (forall k :: 0 <= k < |attempts| - 1 ==> attempts[k].removed < removalTarget)
    && (attempts[|attempts| - 1].removed < removalTarget ==> |attempts| == 6)
  }

  /** The first attempt that removed the most. */
  ghost predicate FirstBest(attempts: seq<Carving>, k: nat) {
    && k < |attempts|
    && (forall j :: 0 <= j < k ==> attempts[j].removed < attempts[k].removed)
    && (forall j :: k < j < |attempts| ==> attempts[j].removed <= attempts[k].removed)
  }

  /** Up to six attempts, and the first that removed the most. */
  method BestAttempt(sh: Shape, removalTarget: int, rng: Random) returns (best: Carving, ghost attempts: seq<Carving>)
    requires sh.Valid()
    modifies rng`next
    ensures AttemptsBehind(sh, attempts, removalTarget)
    ensures exists k: nat :: FirstBest(attempts, k) && best == attempts[k]
    ensures best.Well(sh, removalTarget)
    ensures attempts != [] && Follows(sh, removalTarget, rng.draws, old(rng.next), attempts[0])
  {
    hide Completions, Irreducible, Blanks, FirstBest, CarvedWell, Follows;
    var found: Option<Carving> := None;
    attempts := [];
    ghost var at: nat := 0;
    for attempt := 0 to 6
      invariant |attempts| == attempt
      invariant found.None? <==> attempt == 0
      invariant if attempt == 0 then rng.next == old(rng.next)
        else Follows(sh, removalTarget, rng.draws, old(rng.next), attempts[0])
      invariant attempt > 0 ==> FirstBest(attempts, at) && at < attempt && found.value == attempts[at]
      invariant forall k :: 0 <= k < |attempts| ==> attempts[k].removed < removalTarget
      invariant forall k :: 0 <= k < |attempts| ==> attempts[k].Well(sh, removalTarget)
    {
      var puzzle, solved, removed := Attempt(sh, removalTarget, rng);
      var now := Carving(puzzle, solved, removed);
      NextBest(attempts, at, now);
      attempts := attempts + [now];
      assert attempts[attempt] == now;
      if found.None? || removed > found.value.removed {
        found := Some(now);
        at := attempt;
      }
      if removed >= removalTarget {
        BestOf(attempts, at);
        return now, attempts;
      }
    }
    return found.value, attempts;
  }

  /**
    The puzzle has exactly one completion, the returned solution, and never fewer
    clues than asked for; with more clues than asked for it is irreducible.  It is
    the first attempt that removed the most.
   */
  method Generate(sh: Shape, d: Difficulty, rng: Random) returns (p: Puzzle, ghost attempts: seq<Carving>)
    requires Offered(sh)
    modifies rng`next
    ensures sh.IsBoard(p.puzzle) && Completions(sh, p.puzzle) == {p.solution}
    ensures |Clues(p.puzzle)| >= ClueTarget(sh.size, d)
    ensures |Clues(p.puzzle)| > ClueTarget(sh.size, d) ==> Irreducible(sh, p.puzzle)
    ensures AttemptsBehind(sh, attempts, sh.size * sh.size - ClueTarget(sh.size, d))
    ensures exists k: nat :: FirstBest(attempts, k) && p == Puzzle(attempts[k].puzzle, attempts[k].solution)
    ensures attempts != []
    ensures Follows(sh, sh.size * sh.size - ClueTarget(sh.size, d), rng.draws, old(rng.next), attempts[0])
  {
    var removalTarget := sh.size * sh.size - ClueTarget(sh.size, d);
    assert 0 <= removalTarget <= sh.size * sh.size && sh.Valid();
    hide Completions, Irreducible, Clues, Blanks, CarvedWell, FirstBest, AttemptsBehind, ClueTarget, Offered, Follows;
    var best;
    best, attempts := BestAttempt(sh, removalTarget, rng);
    WellMeans(sh, best, removalTarget);
    return Puzzle(best.puzzle, best.solution), attempts;
  }

  lemma NextBest(attempts: seq<Carving>, at: nat, now: Carving)
    requires attempts == [] || FirstBest(attempts, at)
    ensures attempts != [] ==> at < |attempts|
    ensures FirstBest(attempts + [now], if attempts == [] || now.removed > attempts[at].removed then |attempts| else at)
  {
  }

  /** The best of attempts of which only the last may reach the target: if it does, it is the last. */
  lemma BestOf(attempts: seq<Carving>, at: nat)
    requires FirstBest(attempts, at)
    ensures at < |attempts| && attempts[|attempts| - 1].removed <= attempts[at].removed
    ensures (forall k :: 0 <= k < |attempts| - 1 ==> attempts[k].removed < attempts[|attempts| - 1].removed) ==>
      at == |attempts| - 1
  {
  }

  lemma WellMeans(sh: Shape, c: Carving, removalTarget: int)
    requires sh.Valid() && c.Well(sh, removalTarget) && 0 <= removalTarget <= sh.size * sh.size
    ensures sh.IsBoard(c.puzzle) && Completions(sh, c.puzzle) == {c.solution}
    ensures |Clues(c.puzzle)| == sh.size * sh.size - c.removed >= sh.size * sh.size - removalTarget
    ensures c.removed < removalTarget ==> Irreducible(sh, c.puzzle)
  {
    CluesAndBlanks(c.puzzle);
  }

  // ------------------------------------------------------------------ every puzzle can come out

  /** The blank cells, and then the others. */
  ghost function BlanksFirst(p: Board): seq<nat> { Cells(p, true, |p|) + Cells(p, false, |p|) }

  /** The cells below n that are blank, or are not. */
  ghost function Cells(p: Board, blank: bool, n: nat): (cells: seq<nat>)
    requires n <= |p|
    ensures forall i: nat :: i in cells <==> i < n && (p[i] == 0 <==> blank)
    ensures Distinct(cells)
  {
    if n == 0 then [] else Cells(p, blank, n - 1) + if (p[n - 1] == 0) == blank then [n - 1] else []
  }

  lemma {:induction false} CellsAreAll(p: Board, n: nat)
    requires n <= |p|
    ensures multiset(Cells(p, true, n)) + multiset(Cells(p, false, n)) == multiset(InOrder(n))
  {
    hide InOrder, Distinct, Cells;
    CellsStep(p, n);
    if n > 0 {
      CellsAreAll(p, n - 1);
      OneMoreInOrder(n);
      MoreOfEach(Cells(p, true, n - 1), Cells(p, false, n - 1), InOrder(n - 1), n - 1);
    }
  }

  lemma CellsStep(p: Board, n: nat)
    requires n <= |p|
    ensures n == 0 ==> Cells(p, true, n) == Cells(p, false, n) == InOrder(n) == []
    ensures n > 0 ==> Cells(p, true, n) == Cells(p, true, n - 1) + if p[n - 1] == 0 then [n - 1] else []
    ensures n > 0 ==> Cells(p, false, n) == Cells(p, false, n - 1) + if p[n - 1] == 0 then [] else [n - 1]
  {
    hide Distinct;
  }

  lemma OneMoreInOrder(n: nat)
    requires n > 0
    ensures InOrder(n) == InOrder(n - 1) + [n - 1]
  {
  }

  lemma MoreOfEach(a: seq<nat>, b: seq<nat>, c: seq<nat>, x: nat)
    requires multiset(a) + multiset(b) == multiset(c)
    ensures multiset(a + [x]) + multiset(b + []) == multiset(c + [x]) == multiset(a + []) + multiset(b + [x])
  {
    assert a + [] == a && b + [] == b;
  }

  lemma {:induction false} BlankCellsCount(p: Board, n: nat)
    requires n <= |p|
    ensures |Cells(p, true, n)| == |Blanks(p[..n])|
  {
    if n == 0 {
      assert Blanks(p[..0]) == {};
    } else {
      BlankCellsCount(p, n - 1);
      assert p[..n] == p[..n - 1] + [p[n - 1]];
      BlanksAndCluesOfSnoc(p[..n - 1], p[n - 1]);
    }
  }

  /** Draws for an attempt: to the solution first, then the puzzle's blanks first. */
  lemma DrawsFor(sh: Shape, p: Board, g: Board, at: nat) returns (draws: nat -> nat)
    requires sh.Valid() && sh.IsBoard(p) && Completions(sh, p) == {g}
    ensures var way := Straight(sh, Empty(sh), draws, at);
      way.Some? && way.value.grid == g && Shuffled(InOrder(|g|), draws, way.value.next) == BlanksFirst(p)
    ensures forall n: nat :: draws(n) <= sh.Cells()
  {
    hide Straight, Shuffled, Completions, Then, Cells;
    CompletionsExact(sh, p, g);
    assert g in Completions(sh, p);
    var solve := EverySolutionIsPossible(sh, Empty(sh), g, at);
    var next := Straight(sh, Empty(sh), solve, at).value.next;
    CellsAreAll(p, |p|);
    var carve := EveryOrderIsPossible(InOrder(|p|), BlanksFirst(p), next);
    draws := Then(solve, next, carve);
    ThenTakesTurns(solve, next, carve);
    OnlyUsedDrawsMatter(sh, Empty(sh), solve, draws, at);
    SameShuffled(InOrder(|p|), carve, draws, next);
    SmallDraws(sh, solve, next, carve);
  }

  lemma SmallDraws(sh: Shape, d: nat -> nat, n: nat, e: nat -> nat)
    requires forall k: nat :: d(k) <= sh.size && e(k) <= sh.Cells()
    ensures forall k: nat :: Then(d, n, e)(k) <= sh.Cells()
  {
    assert sh.size <= sh.size * sh.size;
    ThenTakesTurns(d, n, e);
  }

  lemma SameShuffled<T>(s: seq<T>, d: nat -> nat, e: nat -> nat, at: nat)
    requires forall n: nat :: at <= n ==> d(n) == e(n)
    ensures Shuffled(s, d, at) == Shuffled(s, e, at)
  {
    if s != [] { OnlyItsDrawsMatter(s, |s| - 1, d, e, at); }
  }

  /** A carving whose order begins with the blanks of p ends up with p, if p is a possible end. */
  lemma CarvedToTheEnd(sh: Shape, p: Board, g: Board, target: int, c: Carving)
    requires sh.Valid() && sh.IsBoard(p) && Completions(sh, p) == {g}
    requires |Blanks(p)| == target || (|Blanks(p)| < target && Irreducible(sh, p))
    requires c.Well(sh, target) && c.solution == g && BlankedInOrder(sh, g, c.puzzle, BlanksFirst(p), target)
    ensures c == Carving(p, g, |Blanks(p)|)
  {
    hide Completions, Irreducible, Consistent, Blanks, BlankedInOrder, Extends;
    CompletionKeepsClues(sh, p, g);
    CompletionKeepsClues(sh, c.puzzle, g);
    BlankThere(sh, p, g, target, c.puzzle);
    if |Blanks(p)| == target {
      SameBlanks(p, c.puzzle, g, target);
    } else {
      NothingToSpare(sh, p, g, c.puzzle);
    }
  }

  lemma CompletionKeepsClues(sh: Shape, p: Board, g: Board)
    requires sh.Valid() && Completions(sh, p) == {g}
    ensures Extends(g, p) && |p| == |g| == sh.Cells()
  {
    assert g in Completions(sh, p);
    CompletionsExact(sh, p, g);
  }

  lemma BlankThere(sh: Shape, p: Board, g: Board, target: int, q: Board)
    requires sh.Valid() && Extends(g, p) && Completions(sh, p) == {g} && |Blanks(p)| <= target && |q| == |p|
    requires BlankedInOrder(sh, g, q, BlanksFirst(p), target)
    ensures forall i :: 0 <= i < |p| && p[i] == 0 ==> q[i] == 0
  {
    hide Completions, Blanks;
    var blanks := Cells(p, true, |p|);
    assert p[..|p|] == p;
    BlankCellsCount(p, |p|);
    assert BlanksFirst(p)[..|blanks|] == blanks;
    assert BlankAt(g, blanks) == p;
    assert CanAllGo(sh, g, BlanksFirst(p)[..|blanks|]);
    assert AllBlank(q, BlanksFirst(p)[..|blanks|]);
    forall i: nat | i < |p| && p[i] == 0 ensures q[i] == 0 { assert i in blanks; }
  }

  lemma SameBlanks(p: Board, q: Board, g: Board, target: nat)
    requires Extends(g, p) && Extends(g, q) && |Blanks(q)| <= target == |Blanks(p)|
    requires forall i :: 0 <= i < |p| && p[i] == 0 ==> q[i] == 0
    ensures q == p
  {
    assert Blanks(q) == Blanks(p) + (Blanks(q) - Blanks(p));
    assert Blanks(q) - Blanks(p) == {};
    forall i | 0 <= i < |p| ensures q[i] == p[i] { assert i in Blanks(q) <==> i in Blanks(p); }
  }

  lemma NothingToSpare(sh: Shape, p: Board, g: Board, q: Board)
    requires sh.Valid() && Irreducible(sh, p) && Extends(g, p) && Extends(g, q) && Completions(sh, q) == {g}
    requires forall i :: 0 <= i < |p| && p[i] == 0 ==> q[i] == 0
    ensures q == p
  {
    hide Completions, Irreducible;
    forall j: nat | j < |p| ensures q[j] == p[j] {
      if p[j] != 0 && q[j] == 0 {
        assert Extends(p[j := 0], q);
        CompletionsMonotone(sh, p[j := 0], q);
        SubsetSize(Completions(sh, p[j := 0]), {g});
        NotNecessary(sh, p, j);
      }
    }
  }

  lemma NotNecessary(sh: Shape, p: Board, j: nat)
    requires sh.Valid() && j < |p| && p[j] != 0 && |Completions(sh, p[j := 0])| <= 1
    ensures !Irreducible(sh, p)
  {
    assert !Necessary(sh, p, j);
  }

  /**
    No puzzle is left out: whichever puzzle has one completion and either the asked
    number of blanks, or fewer and no clue to spare, some draws make it the
    attempt's result.
   */
  lemma EveryPuzzleCanComeOut(sh: Shape, p: Board, g: Board, target: int, at: nat) returns (draws: nat -> nat)
    requires sh.Valid() && sh.IsBoard(p) && Completions(sh, p) == {g}
    requires |Blanks(p)| == target || (|Blanks(p)| < target && Irreducible(sh, p))
    ensures forall c: Carving :: c.Well(sh, target) && Follows(sh, target, draws, at, c) ==>
      c == Carving(p, g, |Blanks(p)|)
    ensures forall n: nat :: draws(n) <= sh.Cells()
  {
    hide Straight, Shuffled, Completions, Irreducible, Blanks, BlankedInOrder, CarvedWell;
    draws := DrawsFor(sh, p, g, at);
    forall c: Carving | c.Well(sh, target) && Follows(sh, target, draws, at, c)
      ensures c == Carving(p, g, |Blanks(p)|)
    {
      CarvedToTheEnd(sh, p, g, target, c);
    }
  }

  /** With exactly the clues asked for, it is delivered at the first attempt. */
  lemma EveryPuzzleCanBeDelivered(sh: Shape, d: Difficulty, p: Board, g: Board, at: nat) returns (draws: nat -> nat)
    requires Offered(sh) && sh.IsBoard(p) && Completions(sh, p) == {g} && |Clues(p)| == ClueTarget(sh.size, d)
    ensures var target := sh.size * sh.size - ClueTarget(sh.size, d);
      forall attempts: seq<Carving>, k: nat ::
        AttemptsBehind(sh, attempts, target) && Follows(sh, target, draws, at, attempts[0]) &&
          FirstBest(attempts, k) ==>
          attempts[k].puzzle == p && attempts[k].solution == g
    ensures forall n: nat :: draws(n) <= sh.Cells()
  {
    hide Completions, Irreducible, Blanks, Clues, CarvedWell, Follows, ClueTarget;
    var target := sh.size * sh.size - ClueTarget(sh.size, d);
    CluesAndBlanks(p);
    draws := EveryPuzzleCanComeOut(sh, p, g, target, at);
    forall attempts: seq<Carving>, k: nat | AttemptsBehind(sh, attempts, target) &&
      Follows(sh, target, draws, at, attempts[0]) && FirstBest(attempts, k)
      ensures attempts[k].puzzle == p && attempts[k].solution == g
    {
      assert attempts[0].Well(sh, target);
      assert attempts[0] == Carving(p, g, target);
    }
  }
}
