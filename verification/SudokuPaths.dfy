/**
  Which completion a randomized solve arrives at: the grid its first choices lead
  to, and that for some draws it is any completion there is.
 */
module SudokuPaths {
  import opened Options
  import opened SudokuGrid
  import opened Shuffling

  /** The first blank cell with the fewest candidates. */
  ghost predicate FewestFirst(sh: Shape, b: Board, i: nat)
    requires sh.Valid() && sh.IsBoard(b)
  {
    && i < |b| && b[i] == 0
    && (forall j: nat :: j < i && b[j] == 0 ==> |Candidates(sh, b, j)| > |Candidates(sh, b, i)|)
    && (forall j: nat :: i < j < |b| && b[j] == 0 ==> |Candidates(sh, b, j)| >= |Candidates(sh, b, i)|)
  }

  /** The members of s up to n, in increasing order. */
  ghost function Ascending(s: set<nat>, n: nat): (list: seq<nat>)
    ensures forall v :: v in list <==> v in s && 1 <= v <= n
    ensures |list| <= n
  {
    if n == 0 then [] else Ascending(s, n - 1) + if n in s then [n] else []
  }

  /** It is the only increasing list of them. */
  lemma {:induction false} AscendingIs(s: set<nat>, n: nat, list: seq<nat>)
    requires forall v :: v in list <==> v in s && 1 <= v <= n
    requires forall i, j :: 0 <= i < j < |list| ==> list[i] < list[j]
    ensures list == Ascending(s, n)
  {
    if n == 0 {
      if list != [] { HasMember(list); }
    } else if n in s {
      var rest := LargestIsLast(list, n);
      forall v ensures v in rest <==> v in s && 1 <= v <= n - 1 { assert v in list <==> v in rest || v == n; }
      AscendingIs(s, n - 1, rest);
    } else {
      AscendingIs(s, n - 1, list);
    }
  }

  lemma LargestIsLast(list: seq<nat>, n: nat) returns (rest: seq<nat>)
    requires n in list && forall v :: v in list ==> v <= n
    requires forall i, j :: 0 <= i < j < |list| ==> list[i] < list[j]
    ensures list == rest + [n] && n !in rest
    ensures forall i, j :: 0 <= i < j < |rest| ==> rest[i] < rest[j]
  {
    var k :| 0 <= k < |list| && list[k] == n;
    assert list[|list| - 1] in list;
    rest := list[..|list| - 1];
  }

  lemma HasMember(list: seq<nat>)
    requires list != []
    ensures exists v :: v in list
  {
    assert list[0] in list;
  }

  /** The value a randomized search tries first. */
  ghost function FirstTried(list: seq<nat>, draws: nat -> nat, at: nat): (v: nat)
    requires list != []
    ensures v in list
  {
    ShuffleKeeps(list, draws, at);
    Shuffled(list, draws, at)[0]
  }

  lemma ShuffleKeeps(list: seq<nat>, draws: nat -> nat, at: nat)
    ensures forall k :: 0 <= k < |list| ==> Shuffled(list, draws, at)[k] in list
  {
    ShuffleIsPermutation(list, draws, at);
    forall k | 0 <= k < |list| ensures Shuffled(list, draws, at)[k] in list {
      assert Shuffled(list, draws, at)[k] in multiset(Shuffled(list, draws, at));
    }
  }

  /** Where first choices lead, and the draws used up by then. */
  datatype Arrival = Arrival(grid: Board, next: nat)

  /** From a board, the first choice at every cell, if that leads to a full grid. */
  ghost function Straight(sh: Shape, b: Board, draws: nat -> nat, at: nat): Option<Arrival>
    requires sh.Valid() && sh.IsBoard(b)
    decreases |Blanks(b)|
  {
    if Full(b) then Some(Arrival(b, at))
    else
      FewestExists(sh, b);
      var i: nat :| FewestFirst(sh, b, i);
      var list := Ascending(Candidates(sh, b, i), sh.size);
      if list == [] then None
      else
        var v := FirstTried(list, draws, at);
        FillOneBlank(b, i, v);
        Straight(sh, b[i := v], draws, at + |list| - 1)
  }

  lemma FewestExists(sh: Shape, b: Board)
    requires sh.Valid() && sh.IsBoard(b) && !Full(b)
    ensures exists i: nat :: FewestFirst(sh, b, i)
  {
    var k: nat :| k < |b| && b[k] == 0;
    var i := FewestBelow(sh, b, |b|, k);
    assert FewestFirst(sh, b, i);
  }

  lemma {:induction false} FewestBelow(sh: Shape, b: Board, n: nat, k: nat) returns (i: nat)
    requires sh.Valid() && sh.IsBoard(b) && n <= |b| && k < n && b[k] == 0
    ensures i < n && b[i] == 0
    ensures forall j: nat :: j < i && b[j] == 0 ==> |Candidates(sh, b, j)| > |Candidates(sh, b, i)|
    ensures forall j: nat :: i < j < n && b[j] == 0 ==> |Candidates(sh, b, j)| >= |Candidates(sh, b, i)|
    decreases n
  {
    hide Candidates;
    var last := n - 1;
    if before: nat :| before < last && b[before] == 0 {
      i := FewestBelow(sh, b, last, before);
      if b[last] == 0 && |Candidates(sh, b, last)| < |Candidates(sh, b, i)| {
        forall j: nat | j < last && b[j] == 0 ensures |Candidates(sh, b, j)| > |Candidates(sh, b, last)| {
          if j != i && j > i { assert |Candidates(sh, b, j)| >= |Candidates(sh, b, i)|; }
        }
        i := last;
      }
    } else {
      i := k;
    }
  }

  lemma FewestIsOne(sh: Shape, b: Board, i: nat, j: nat)
    requires sh.Valid() && sh.IsBoard(b) && FewestFirst(sh, b, i) && FewestFirst(sh, b, j)
    ensures i == j
  {
    hide Candidates;
  }

  /** One choice on the way. */
  lemma StraightStep(sh: Shape, b: Board, i: nat, draws: nat -> nat, at: nat)
    requires sh.Valid() && sh.IsBoard(b) && FewestFirst(sh, b, i)
    ensures var list := Ascending(Candidates(sh, b, i), sh.size);
      Straight(sh, b, draws, at) ==
      if list == [] then None else Straight(sh, b[i := FirstTried(list, draws, at)], draws, at + |list| - 1)
  {
    hide Candidates, Ascending, FirstTried;
    assert !Full(b);
    FewestExists(sh, b);
    forall j: nat | FewestFirst(sh, b, j) ensures j == i { FewestIsOne(sh, b, i, j); }
  }

  // ------------------------------------------------------------------ every completion can come out

  /** Only the draws that are used up on the way matter. */
  lemma {:induction false} OnlyUsedDrawsMatter(sh: Shape, b: Board, d: nat -> nat, e: nat -> nat, at: nat)
    requires sh.Valid() && sh.IsBoard(b) && Straight(sh, b, d, at).Some?
    requires forall n: nat :: at <= n < Straight(sh, b, d, at).value.next ==> d(n) == e(n)
    ensures Straight(sh, b, e, at) == Straight(sh, b, d, at)
    ensures at <= Straight(sh, b, d, at).value.next
    decreases |Blanks(b)|
  {
    hide Candidates, FirstTried, Ascending, Straight;
    if Full(b) {
      NowhereToGo(sh, b, d, at);
      NowhereToGo(sh, b, e, at);
    } else {
      FewestExists(sh, b);
      var i: nat :| FewestFirst(sh, b, i);
      var list := Ascending(Candidates(sh, b, i), sh.size);
      StraightStep(sh, b, i, d, at);
      StraightStep(sh, b, i, e, at);
      var v := FirstTried(list, d, at);
      FillOneBlank(b, i, v);
      NextIsLater(sh, b[i := v], d, at + |list| - 1);
      SameFirstTried(list, d, e, at);
      OnlyUsedDrawsMatter(sh, b[i := v], d, e, at + |list| - 1);
    }
  }

  lemma {:induction false} NextIsLater(sh: Shape, b: Board, d: nat -> nat, at: nat)
    requires sh.Valid() && sh.IsBoard(b)
    ensures Straight(sh, b, d, at).Some? ==> at <= Straight(sh, b, d, at).value.next
    decreases |Blanks(b)|
  {
    hide Candidates, FirstTried, Ascending, Straight;
    if Full(b) {
      NowhereToGo(sh, b, d, at);
    } else {
      FewestExists(sh, b);
      var i: nat :| FewestFirst(sh, b, i);
      var list := Ascending(Candidates(sh, b, i), sh.size);
      StraightStep(sh, b, i, d, at);
      if list != [] {
        FillOneBlank(b, i, FirstTried(list, d, at));
        NextIsLater(sh, b[i := FirstTried(list, d, at)], d, at + |list| - 1);
      }
    }
  }

  lemma NowhereToGo(sh: Shape, b: Board, d: nat -> nat, at: nat)
    requires sh.Valid() && sh.IsBoard(b) && Full(b)
    ensures Straight(sh, b, d, at) == Some(Arrival(b, at))
  {
  }

  lemma SameFirstTried(list: seq<nat>, d: nat -> nat, e: nat -> nat, at: nat)
    requires list != [] && forall n: nat :: at <= n < at + |list| - 1 ==> d(n) == e(n)
    ensures FirstTried(list, d, at) == FirstTried(list, e, at)
  {
    OnlyItsDrawsMatter(list, |list| - 1, d, e, at);
  }

  /** The draws of d before n, those of e from n on. */
  function Then(d: nat -> nat, n: nat, e: nat -> nat): nat -> nat { (k: nat) => if k < n then d(k) else e(k) }

  /** With some draws, v is tried first. */
  lemma AnyCanBeFirst(list: seq<nat>, v: nat, at: nat) returns (draws: nat -> nat)
    requires v in list
    ensures FirstTried(list, draws, at) == v
    ensures forall n: nat :: draws(n) <= |list|
  {
    var k :| 0 <= k < |list| && list[k] == v;
    var p := [v] + list[..k] + list[k + 1..];
    assert list == list[..k] + [v] + list[k + 1..];
    draws := EveryOrderIsPossible(list, p, at);
  }

  /** Whatever completions a board has, each is where the search arrives with some draws. */
  lemma {:induction false} EverySolutionIsPossible(sh: Shape, b: Board, g: Board, at: nat) returns (draws: nat -> nat)
    requires sh.Valid() && sh.IsBoard(b) && IsCompletion(sh, g, b)
    ensures Straight(sh, b, draws, at).Some? && Straight(sh, b, draws, at).value.grid == g
    ensures forall n: nat :: draws(n) <= sh.size
    decreases |Blanks(b)|
  {
    hide Candidates, FirstTried, Ascending, Straight, Then;
    if Full(b) {
      draws := n => 0;
      NowhereToGo(sh, b, draws, at);
    } else {
      FewestExists(sh, b);
      var i: nat :| FewestFirst(sh, b, i);
      var list, v := Ascending(Candidates(sh, b, i), sh.size), g[i];
      CompletionHasCandidate(sh, b, g, i);
      FillOneBlank(b, i, v);
      var first := AnyCanBeFirst(list, v, at);
      var rest := EverySolutionIsPossible(sh, b[i := v], g, at + |list| - 1);
      draws := Then(first, at + |list| - 1, rest);
      ThenTakesTurns(first, at + |list| - 1, rest);
      SameFirstTried(list, first, draws, at);
      OnlyUsedDrawsMatter(sh, b[i := v], rest, draws, at + |list| - 1);
      StraightStep(sh, b, i, draws, at);
    }
  }

  lemma ThenTakesTurns(d: nat -> nat, n: nat, e: nat -> nat)
    ensures forall k: nat :: Then(d, n, e)(k) == if k < n then d(k) else e(k)
  {
  }

  lemma CompletionHasCandidate(sh: Shape, b: Board, g: Board, i: nat)
    requires sh.Valid() && sh.IsBoard(b) && IsCompletion(sh, g, b) && i < |b| && b[i] == 0
    ensures g[i] > 0 && g[i] in Ascending(Candidates(sh, b, i), sh.size)
    ensures IsCompletion(sh, g, b[i := g[i]])
  {
    CompletionsExact(sh, b, g);
    CompletionsUseCandidates(sh, b, i);
  }
}
