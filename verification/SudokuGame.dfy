/**
  The sudoku game: cells and pencil notes edited through an undo/redo history.
  The functions on `Play` say what each event does to a game; the class `Game`
  performs them on its fields; the lemmas are about every reachable game.
 */
module SudokuGame {
  import opened Bits
  import opened SudokuGrid
  import opened SudokuSolver
  import opened SudokuGenerator
  import opened Shuffling

  /** One undoable change of one cell. */
  datatype Action = Action(idx: nat, prevValue: int, nextValue: int, prevNotes: Mask, nextNotes: Mask)

  datatype Play = Play(
    sh: Shape,
    puzzle: Board,
    solution: Board,
    cells: Board,
    notes: seq<Mask>,
    history: seq<Action>,
    historyPtr: nat,
    notesMode: bool,
    solvedAt: bool,     // the moment of solving, once set
    generating: bool)
  {
    predicate Fixed(i: nat)
      requires i < |puzzle|
    {
      puzzle[i] != 0
    }

    predicate IsSolved() {
      solution != [] && |cells| == |solution| && forall i :: 0 <= i < |cells| ==> cells[i] == solution[i]
    }

    predicate CanEdit(i: nat)
      requires i < |puzzle|
    {
      !Fixed(i) && !solvedAt && !IsSolved() && !generating
    }

    predicate CanUndo() { 0 < historyPtr <= |history| }

    predicate CanRedo() { historyPtr < |history| }

    /** Sets one cell and its notes. */
    function WithCell(i: nat, value: int, note: Mask): Play
      requires i < |cells| && i < |notes|
    {
      this.(cells := cells[i := value], notes := notes[i := note])
    }

    /** Records an action after the current point, dropping what could be redone, and performs it. */
    function Do(a: Action): Play
      requires a.idx < |cells| && a.idx < |notes| && historyPtr <= |history|
    {
      this.(history := history[..historyPtr] + [a], historyPtr := historyPtr + 1)
          .WithCell(a.idx, a.nextValue, a.nextNotes)
    }

    function Undo(): Play
      requires CanUndo() ==> history[historyPtr - 1].idx < |cells| && history[historyPtr - 1].idx < |notes|
    {
      if !CanUndo() then this
      else
        var a := history[historyPtr - 1];
        WithCell(a.idx, a.prevValue, a.prevNotes).(historyPtr := historyPtr - 1)
    }

    function Redo(): Play
      requires CanRedo() ==> history[historyPtr].idx < |cells| && history[historyPtr].idx < |notes|
    {
      if !CanRedo() then this
      else
        var a := history[historyPtr];
        WithCell(a.idx, a.nextValue, a.nextNotes).(historyPtr := historyPtr + 1)
    }

    /** A digit, or 0 to erase, typed into cell i. */
    function Enter(i: nat, digit: nat): Play
      requires i < |puzzle| == |cells| == |notes| && historyPtr <= |history| && digit < 32
    {
      if !CanEdit(i) then this
      else if notesMode && cells[i] == 0 && digit != 0 then
        Do(Action(i, 0, 0, notes[i], Xor(notes[i], Bit(digit))))
      else
        var next := if digit == cells[i] then 0 else digit;
        if next == cells[i] && notes[i] == 0 then this
        else Do(Action(i, cells[i], next, notes[i], 0))
    }

    /** The cells a hint may fill: the empty ones, or else the wrong ones. */
    function HintPool(): set<nat>
      requires |puzzle| == |cells| == |solution|
    {
      var empties := set i: nat | i < |cells| && !Fixed(i) && cells[i] == 0;
      if empties != {} then empties
      else set i: nat | i < |cells| && !Fixed(i) && cells[i] != 0 && cells[i] != solution[i]
    }

    /** The hint that fills cell i of the pool. */
    function HintAt(i: nat): Play
      requires |puzzle| == |cells| == |solution| == |notes| && historyPtr <= |history| && i in HintPool()
    {
      if generating || solvedAt then this
      else Do(Action(i, cells[i], solution[i], notes[i], 0))
    }

    function Reset(): Play {
      if puzzle == [] || generating then this
      else Started(sh, puzzle, solution)
    }

    /** The watcher that notes the moment of solving. */
    function Watch(): Play { if IsSolved() then this.(solvedAt := true) else this }

    /** newGame before and after the generator ran. */
    function BeginNewGame(): Play { if generating then this else this.(generating := true, solvedAt := false) }

    /** The generated game arrives; the solved mark stays as it is then. */
    function Deliver(sh: Shape, puzzle: Board, solution: Board): Play
    {
      Started(sh, puzzle, solution).(solvedAt := solvedAt)
    }
  }

  function NoNotes(n: nat): seq<Mask> { seq(n, _ => 0) }

  function Started(sh: Shape, puzzle: Board, solution: Board): Play {
    Play(sh, puzzle, solution, puzzle, NoNotes(|puzzle|), [], 0, false, false, false)
  }

  // ------------------------------------------------------------------ replaying the history

  datatype Page = Page(cells: Board, notes: seq<Mask>)

  /** The cells and notes after performing the actions on the bare puzzle. */
  ghost function Replay(puzzle: Board, actions: seq<Action>): (page: Page)
    requires forall t :: 0 <= t < |actions| ==> actions[t].idx < |puzzle|
    ensures |page.cells| == |page.notes| == |puzzle|
  {
    if actions == [] then Page(puzzle, NoNotes(|puzzle|))
    else
      var a := actions[|actions| - 1];
      var before := Replay(puzzle, actions[..|actions| - 1]);
      Page(before.cells[a.idx := a.nextValue], before.notes[a.idx := a.nextNotes])
  }

  /** An action that is honest about what it replaces, leaves clues alone and writes a legal cell. */
  ghost predicate ActionFits(sh: Shape, puzzle: Board, before: Page, a: Action) {
    && a.idx < |puzzle| == |before.cells| == |before.notes|
    && puzzle[a.idx] == 0
    && a.prevValue == before.cells[a.idx] && a.prevNotes == before.notes[a.idx]
    && 0 <= a.nextValue <= sh.size
    && (a.nextValue != 0 ==> a.nextNotes == 0)
  }

  ghost predicate HistoryFits(sh: Shape, puzzle: Board, history: seq<Action>) {
    && (forall t :: 0 <= t < |history| ==> history[t].idx < |puzzle|)
    && forall t :: 0 <= t < |history| ==> ActionFits(sh, puzzle, Replay(puzzle, history[..t]), history[t])
  }

  /** The invariant of every reachable game. */
  ghost predicate Sound(p: Play) {
    && p.sh.Valid() && p.sh.IsBoard(p.puzzle)
    && Completions(p.sh, p.puzzle) == {p.solution}
    && Filed(p)
  }

  /** The history is honest and the cells and notes are where its pointer says. */
  ghost predicate Filed(p: Play) {
    && HistoryFits(p.sh, p.puzzle, p.history)
    && p.historyPtr <= |p.history|
    && Page(p.cells, p.notes) == Replay(p.puzzle, p.history[..p.historyPtr])
  }

  lemma ReplayOfSnoc(puzzle: Board, actions: seq<Action>, a: Action)
    requires forall t :: 0 <= t < |actions| ==> actions[t].idx < |puzzle|
    requires a.idx < |puzzle|
    ensures Replay(puzzle, actions + [a]) ==
      var before := Replay(puzzle, actions);
      Page(before.cells[a.idx := a.nextValue], before.notes[a.idx := a.nextNotes])
  {
    assert (actions + [a])[..|actions|] == actions;
  }

  lemma ReplayStep(puzzle: Board, history: seq<Action>, n: nat)
    requires forall t :: 0 <= t < |history| ==> history[t].idx < |puzzle|
    requires n < |history|
    ensures Replay(puzzle, history[..n + 1]) ==
      var before, a := Replay(puzzle, history[..n]), history[n];
      Page(before.cells[a.idx := a.nextValue], before.notes[a.idx := a.nextNotes])
  {
    hide Replay;
    assert history[..n + 1] == history[..n] + [history[n]];
    ReplayOfSnoc(puzzle, history[..n], history[n]);
  }

  lemma HistoryFitsOfSnoc(sh: Shape, puzzle: Board, kept: seq<Action>, a: Action)
    requires HistoryFits(sh, puzzle, kept) && ActionFits(sh, puzzle, Replay(puzzle, kept), a)
    ensures HistoryFits(sh, puzzle, kept + [a])
  {
    var h := kept + [a];
    forall t | 0 <= t < |h| ensures ActionFits(sh, puzzle, Replay(puzzle, h[..t]), h[t]) {
      assert h[..t] == kept[..t];
      if t == |kept| { assert kept[..t] == kept; }
    }
  }

  lemma HistoryFitsPrefix(sh: Shape, puzzle: Board, history: seq<Action>, n: nat)
    requires HistoryFits(sh, puzzle, history) && n <= |history|
    ensures HistoryFits(sh, puzzle, history[..n])
  {
    forall t | 0 <= t < n ensures ActionFits(sh, puzzle, Replay(puzzle, history[..n][..t]), history[..n][t]) {
      assert history[..n][..t] == history[..t];
    }
  }

  /** What the history discipline gives every page: clues untouched, digits legal, no notes in filled cells. */
  ghost predicate PageFits(sh: Shape, puzzle: Board, page: Page) {
    && |page.cells| == |page.notes| == |puzzle|
    && Extends(page.cells, puzzle)
    && (forall i :: 0 <= i < |puzzle| ==> 0 <= page.cells[i] <= sh.size)
    && (forall i :: 0 <= i < |puzzle| && page.cells[i] != 0 ==> page.notes[i] == 0)
  }

  lemma {:induction false} ReplayFits(sh: Shape, puzzle: Board, actions: seq<Action>)
    requires forall i :: 0 <= i < |puzzle| ==> 0 <= puzzle[i] <= sh.size
    requires HistoryFits(sh, puzzle, actions)
    ensures PageFits(sh, puzzle, Replay(puzzle, actions))
  {
    if actions != [] {
      var n := |actions| - 1;
      HistoryFitsPrefix(sh, puzzle, actions, n);
      ReplayFits(sh, puzzle, actions[..n]);
      assert ActionFits(sh, puzzle, Replay(puzzle, actions[..n]), actions[n]);
    }
  }

  lemma PuzzleInRange(p: Play)
    requires Sound(p)
    ensures IsCompletion(p.sh, p.solution, p.puzzle)
    ensures forall i :: 0 <= i < |p.puzzle| ==> 0 <= p.puzzle[i] <= p.sh.size
  {
    assert p.solution in Completions(p.sh, p.puzzle);
    forall i | 0 <= i < |p.puzzle| ensures 0 <= p.puzzle[i] <= p.sh.size {
      assert 0 <= p.solution[i] <= p.sh.size;
    }
  }

  lemma SoundPage(p: Play)
    requires Sound(p)
    ensures PageFits(p.sh, p.puzzle, Page(p.cells, p.notes))
  {
    PuzzleInRange(p);
    HistoryFitsPrefix(p.sh, p.puzzle, p.history, p.historyPtr);
    ReplayFits(p.sh, p.puzzle, p.history[..p.historyPtr]);
  }

  // ------------------------------------------------------------------ every event keeps a game sound

  lemma DoKeepsSound(p: Play, a: Action)
    requires Sound(p) && ActionFits(p.sh, p.puzzle, Page(p.cells, p.notes), a)
    ensures Sound(p.Do(a))
  {
    hide Replay, Completions;
    var kept := p.history[..p.historyPtr];
    HistoryFitsPrefix(p.sh, p.puzzle, p.history, p.historyPtr);
    HistoryFitsOfSnoc(p.sh, p.puzzle, kept, a);
    ReplayOfSnoc(p.puzzle, kept, a);
    assert (kept + [a])[..p.historyPtr + 1] == kept + [a];
  }

  /** Going back one action: the page before it, exactly. */
  lemma StepBack(p: Play)
    requires Filed(p) && p.CanUndo()
    ensures p.history[p.historyPtr - 1].idx < |p.cells| == |p.notes|
    ensures Page(p.Undo().cells, p.Undo().notes) == Replay(p.puzzle, p.history[..p.historyPtr - 1])
    ensures Filed(p.Undo())
  {
    var n := p.historyPtr - 1;
    var a, before := p.history[n], Replay(p.puzzle, p.history[..n]);
    assert ActionFits(p.sh, p.puzzle, before, a);
    ReplayStep(p.puzzle, p.history, n);
    assert p.cells == before.cells[a.idx := a.nextValue] && p.notes == before.notes[a.idx := a.nextNotes];
    WriteBack(before.cells, a.idx, a.nextValue);
    WriteBack(before.notes, a.idx, a.nextNotes);
  }

  lemma WriteBack<T>(s: seq<T>, i: nat, x: T)
    requires i < |s|
    ensures s[i := x][i := s[i]] == s
  {
  }

  lemma StepForward(p: Play)
    requires Filed(p) && p.CanRedo()
    ensures p.history[p.historyPtr].idx < |p.cells| == |p.notes|
    ensures Page(p.Redo().cells, p.Redo().notes) == Replay(p.puzzle, p.history[..p.historyPtr + 1])
    ensures Filed(p.Redo())
  {
    var n := p.historyPtr;
    var before := Replay(p.puzzle, p.history[..n]);
    assert before == Page(p.cells, p.notes);
    assert p.history[n].idx < |p.puzzle|;
    ReplayStep(p.puzzle, p.history, n);
  }

  lemma UndoKeepsSound(p: Play)
    requires Sound(p)
    ensures p.CanUndo() ==> p.history[p.historyPtr - 1].idx < |p.cells| == |p.notes|
    ensures Sound(p.Undo())
  {
    if p.CanUndo() { StepBack(p); }
  }

  lemma RedoKeepsSound(p: Play)
    requires Sound(p)
    ensures p.CanRedo() ==> p.history[p.historyPtr].idx < |p.cells| == |p.notes|
    ensures Sound(p.Redo())
  {
    if p.CanRedo() { StepForward(p); }
  }

  lemma EnterKeepsSound(p: Play, i: nat, digit: nat)
    requires Sound(p) && i < |p.puzzle| && digit <= p.sh.size
    ensures Sound(p.Enter(i, digit))
  {
    if p.CanEdit(i) {
      if p.notesMode && p.cells[i] == 0 && digit != 0 {
        DoKeepsSound(p, Action(i, 0, 0, p.notes[i], Xor(p.notes[i], Bit(digit))));
      } else {
        var next := if digit == p.cells[i] then 0 else digit;
        DoKeepsSound(p, Action(i, p.cells[i], next, p.notes[i], 0));
      }
    }
  }

  lemma HintKeepsSound(p: Play, i: nat)
    requires Sound(p) && |p.solution| == |p.puzzle| && i in p.HintPool()
    ensures Sound(p.HintAt(i))
  {
    PuzzleInRange(p);
    assert 0 <= p.solution[i] <= p.sh.size;
    DoKeepsSound(p, Action(i, p.cells[i], p.solution[i], p.notes[i], 0));
  }

  lemma StartedIsSound(sh: Shape, puzzle: Board, solution: Board)
    requires sh.Valid() && sh.IsBoard(puzzle) && Completions(sh, puzzle) == {solution}
    ensures Sound(Started(sh, puzzle, solution))
  {
  }

  // ------------------------------------------------------------------ runs

  /** Everything a user or the interface can make happen to a game. */
  datatype Event =
    | EnterDigit(i: nat, digit: nat)
    | UndoEvent
    | RedoEvent
    | HintEvent(at: nat)
    | ResetEvent
    | ToggleNotesMode
    | SolvedWatcher
    | NewGameAsked
    | NewGameReady(sh: Shape, puzzle: Board, solution: Board)

  /** Cells exist and digits are on the keypad; a new game comes from the generator, while it was asked for. */
  ghost predicate Enabled(p: Play, e: Event) {
    match e
    case EnterDigit(i, digit) => i < |p.puzzle| && digit <= p.sh.size
    case HintEvent(i) => |p.puzzle| == |p.cells| == |p.solution| && i in p.HintPool()
    case NewGameReady(sh, puzzle, solution) =>
      p.generating && sh.Valid() && sh.IsBoard(puzzle) && Completions(sh, puzzle) == {solution}
    case _ => true
  }

  ghost predicate Happens(p: Play, e: Event, q: Play)
    requires Sound(p)
  {
    Enabled(p, e) &&
    match e
    case EnterDigit(i, digit) => q == p.Enter(i, digit)
    case UndoEvent => (UndoKeepsSound(p); q == p.Undo())
    case RedoEvent => (RedoKeepsSound(p); q == p.Redo())
    case HintEvent(i) => q == p.HintAt(i)
    case ResetEvent => q == p.Reset()
    case ToggleNotesMode => q == p.(notesMode := !p.notesMode)
    case SolvedWatcher => q == p.Watch()
    case NewGameAsked => q == p.BeginNewGame()
    case NewGameReady(sh, puzzle, solution) => q == p.Deliver(sh, puzzle, solution)
  }

  lemma HappensKeepsSound(p: Play, e: Event, q: Play)
    requires Sound(p) && Happens(p, e, q)
    ensures Sound(q)
    ensures !e.NewGameReady? ==> q.puzzle == p.puzzle && q.solution == p.solution
  {
    hide Replay, HistoryFits, Completions;
    match e {
      case EnterDigit(i, digit) => EnterKeepsSound(p, i, digit);
      case UndoEvent => UndoKeepsSound(p);
      case RedoEvent => RedoKeepsSound(p);
      case HintEvent(i) => HintKeepsSound(p, i);
      case ResetEvent => StartedIsSound(p.sh, p.puzzle, p.solution);
      case NewGameReady(sh, puzzle, solution) => StartedIsSound(sh, puzzle, solution);
      case _ =>
    }
  }

  /** A run: states linked by events. */
  ghost predicate IsRun(states: seq<Play>, events: seq<Event>) {
    && |states| == |events| + 1
    && forall t :: 0 <= t < |events| ==> Sound(states[t]) ==> Happens(states[t], events[t], states[t + 1])
  }

  /**
    In every state of every run from a freshly generated puzzle, cells and notes
    are the puzzle with the first historyPtr actions applied, the clues are
    untouched, digits are legal and filled cells have no notes.
   */
  lemma {:induction false} EveryReachableGameIsSound(states: seq<Play>, events: seq<Event>, t: nat)
    requires IsRun(states, events) && t < |states|
    requires Sound(states[0])
    ensures Sound(states[t])
    ensures PageFits(states[t].sh, states[t].puzzle, Page(states[t].cells, states[t].notes))
  {
    if t != 0 {
      EveryReachableGameIsSound(states, events, t - 1);
      HappensKeepsSound(states[t - 1], events[t - 1], states[t]);
    }
    SoundPage(states[t]);
  }

  // ------------------------------------------------------------------ undo and redo

  lemma UndoThenRedo(p: Play)
    requires Filed(p) && p.CanUndo()
    ensures p.history[p.historyPtr - 1].idx < |p.cells| == |p.notes|
    ensures p.Undo().CanRedo() && p.Undo().Redo() == p
  {
    StepBack(p);
    StepForward(p.Undo());
  }

  lemma RedoThenUndo(p: Play)
    requires Filed(p) && p.CanRedo()
    ensures p.history[p.historyPtr].idx < |p.cells| == |p.notes|
    ensures p.Redo().CanUndo() && p.Redo().Undo() == p
  {
    StepForward(p);
    StepBack(p.Redo());
  }

  lemma BackIsFiled(p: Play)
    requires Filed(p) && p.CanUndo()
    ensures p.history[p.historyPtr - 1].idx < |p.cells| == |p.notes|
    ensures Filed(p.Undo())
  {
    StepBack(p);
  }

  /** Undoing n steps, as far as there are any. */
  ghost function UndoTimes(p: Play, n: nat): (q: Play)
    requires Filed(p) && n <= p.historyPtr
    ensures Filed(q) && q == p.(cells := q.cells, notes := q.notes, historyPtr := p.historyPtr - n)
    decreases n
  {
    if n == 0 then p else (BackIsFiled(p); UndoTimes(p.Undo(), n - 1))
  }

  ghost function RedoTimes(p: Play, n: nat): (q: Play)
    requires Filed(p) && p.historyPtr + n <= |p.history|
    ensures Filed(q) && q == p.(cells := q.cells, notes := q.notes, historyPtr := p.historyPtr + n)
    decreases n
  {
    if n == 0 then p else (StepForward(p); RedoTimes(p.Redo(), n - 1))
  }

  /** Undoing everything gives the bare puzzle back, whatever was done. */
  lemma UndoAllGivesThePuzzle(p: Play)
    requires Filed(p)
    ensures UndoTimes(p, p.historyPtr).cells == p.puzzle
    ensures UndoTimes(p, p.historyPtr).notes == NoNotes(|p.puzzle|)
  {
    var q := UndoTimes(p, p.historyPtr);
    assert q.history[..0] == [];
  }

  /** Undoing any number of steps loses nothing: redoing as many gives the game back. */
  lemma RedoRevertsUndo(p: Play, n: nat)
    requires Filed(p) && n <= p.historyPtr
    ensures RedoTimes(UndoTimes(p, n), n) == p
  {
    hide Replay;
    var q := RedoTimes(UndoTimes(p, n), n);
    assert Page(q.cells, q.notes) == Replay(p.puzzle, p.history[..p.historyPtr]);
  }

  // ------------------------------------------------------------------ solving

  lemma SizesMatch(p: Play)
    requires Sound(p)
    ensures |p.puzzle| == |p.cells| == |p.notes| == |p.solution| > 0
  {
    PuzzleInRange(p);
    var n := p.sh.size;
    assert n >= 1 by { Positive(p.sh.boxSize); }
    Positive(n);
  }

  lemma Positive(k: nat)
    requires k >= 1
    ensures k * k >= 1
  {
  }

  /** With a unique solution, winning is exactly filling the board without a clash. */
  lemma SolvedIffFullAndClashFree(p: Play)
    requires Sound(p)
    ensures p.IsSolved() <==> Full(p.cells) && NoClash(p.sh, p.cells)
  {
    PuzzleInRange(p);
    SoundPage(p);
    CompletionsExact(p.sh, p.puzzle, p.cells);
    assert p.cells in Completions(p.sh, p.puzzle) <==> p.cells == p.solution;
    assert p.IsSolved() <==> p.cells == p.solution by { SizesMatch(p); }
  }

  /** The cells that differ from the solution. */
  ghost function Wrong(p: Play): set<nat>
    requires |p.cells| == |p.solution|
  {
    set i: nat | i < |p.cells| && p.cells[i] != p.solution[i]
  }

  ghost predicate Hintable(p: Play) { Sound(p) && !p.generating && !p.solvedAt }

  /** There is a hint to give exactly when something is wrong, and it is about a wrong cell. */
  lemma HintPoolIsRight(p: Play)
    requires Sound(p)
    ensures |p.puzzle| == |p.cells| == |p.solution|
    ensures p.HintPool() <= Wrong(p)
    ensures p.HintPool() == {} <==> Wrong(p) == {}
    ensures Wrong(p) == {} <==> p.IsSolved()
  {
    SizesMatch(p);
    PuzzleInRange(p);
    SoundPage(p);
    forall i: nat | i < |p.puzzle| && p.Fixed(i) ensures p.cells[i] == p.solution[i] {
      assert p.cells[i] == p.puzzle[i] && p.solution[i] == p.puzzle[i];
    }
    if i :| i in Wrong(p) {
      if p.cells[i] == 0 {
        assert i in set j: nat | j < |p.cells| && !p.Fixed(j) && p.cells[j] == 0;
      }
    }
    if !p.IsSolved() {
      var i :| 0 <= i < |p.cells| && p.cells[i] != p.solution[i];
      assert i in Wrong(p);
    }
  }

  /** A hint corrects exactly the one cell it picks. */
  lemma HintCorrectsOneCell(p: Play, i: nat)
    requires Hintable(p) && |p.puzzle| == |p.cells| == |p.solution| && i in p.HintPool()
    ensures |p.HintAt(i).cells| == |p.solution|
    ensures i in Wrong(p) && Wrong(p.HintAt(i)) == Wrong(p) - {i}
    ensures Hintable(p.HintAt(i))
  {
    HintPoolIsRight(p);
    HintKeepsSound(p, i);
  }

  /** q is p after one hint, whichever cell of the pool it chose. */
  ghost predicate HintStep(p: Play, q: Play) {
    && |p.puzzle| == |p.cells| == |p.solution| == |p.notes| && p.historyPtr <= |p.history|
    && exists i :: i in p.HintPool() && q == p.HintAt(i)
  }

  lemma HintStepLowersDistance(p: Play, q: Play)
    requires Hintable(p) && HintStep(p, q)
    ensures Hintable(q)
    ensures |p.cells| == |p.solution| && |q.cells| == |q.solution| && |Wrong(q)| == |Wrong(p)| - 1
  {
    var i :| i in p.HintPool() && q == p.HintAt(i);
    HintCorrectsOneCell(p, i);
    SizesMatch(q);
  }

  lemma HintPossibleUntilSolved(p: Play)
    requires Hintable(p)
    ensures p.IsSolved() || exists q :: HintStep(p, q)
  {
    HintPoolIsRight(p);
    SizesMatch(p);
    if i :| i in p.HintPool() {
      assert HintStep(p, p.HintAt(i));
    }
  }

  /** Hints alone always finish: however they choose, after exactly as many as there are wrong cells. */
  lemma {:induction false} HintsFinish(states: seq<Play>, t: nat)
    requires t < |states| && Hintable(states[0])
    requires forall u :: 0 <= u < |states| - 1 ==> HintStep(states[u], states[u + 1])
    ensures Hintable(states[t])
    ensures |states[0].cells| == |states[0].solution| && |states[t].cells| == |states[t].solution|
    ensures |Wrong(states[t])| == |Wrong(states[0])| - t
    ensures states[t].IsSolved() <==> t == |Wrong(states[0])|
  {
    if t == 0 {
      SizesMatch(states[0]);
    } else {
      HintsFinish(states, t - 1);
      HintStepLowersDistance(states[t - 1], states[t]);
    }
    HintPoolIsRight(states[t]);
  }

  /**
    The solved mark outlives an undo: after it, a game that is no longer solved
    takes neither digits nor hints; only redo, reset and a new game are left.
   */
  lemma UndoAfterSolvedLocksTheGame(p: Play)
    requires Sound(p) && p.IsSolved() && p.CanUndo() && !p.generating
    requires p.history[p.historyPtr - 1].prevValue != p.history[p.historyPtr - 1].nextValue
    ensures p.history[p.historyPtr - 1].idx < |p.cells| == |p.notes|
    ensures var q := p.Watch().Undo();
      && |q.puzzle| == |q.cells| == |q.notes| == |q.solution|
      && !q.IsSolved()
      && (forall i: nat, d: nat :: i < |q.puzzle| && d < 32 ==> q.Enter(i, d) == q)
      && (forall i :: i in q.HintPool() ==> q.HintAt(i) == q)
      && q.Redo().IsSolved()
  {
    SizesMatch(p);
    var w := p.Watch();
    StepBack(w);
    UndoThenRedo(w);
    var n := p.historyPtr - 1;
    var a := p.history[n];
    assert ActionFits(p.sh, p.puzzle, Replay(p.puzzle, p.history[..n]), a);
    ReplayStep(p.puzzle, p.history, n);
    var q := w.Undo();
    assert p.cells[a.idx] == a.nextValue && q.cells[a.idx] == a.prevValue;
    assert p.cells[a.idx] == p.solution[a.idx];
  }

  /** Every digit typed into an open cell is recorded. */
  lemma DigitIsRecorded(p: Play, i: nat, digit: nat)
    requires i < |p.puzzle| == |p.cells| == |p.notes| && p.historyPtr <= |p.history| && 1 <= digit < 32
    ensures p.Enter(i, digit).historyPtr == p.historyPtr + if p.CanEdit(i) then 1 else 0
  {
    hide Xor, Bit;
  }

  /** Nothing on the board but cell i differs. */
  ghost predicate OnlyCell(p: Play, q: Play, i: nat) {
    && |q.cells| == |p.cells| && |q.notes| == |p.notes|
    && (forall j :: 0 <= j < |p.cells| && j != i ==> q.cells[j] == p.cells[j])
    && (forall j :: 0 <= j < |p.notes| && j != i ==> q.notes[j] == p.notes[j])
  }

  /**
    What a digit does to an open cell, 0 meaning the eraser: with notes mode on and
    the cell blank it flips that digit's note; otherwise it becomes the value, but
    the value that is there already, like the eraser, clears the cell, and the
    notes go.
   */
  lemma DigitInOpenCell(p: Play, i: nat, digit: nat)
    requires Sound(p) && i < |p.puzzle| && p.CanEdit(i) && digit <= p.sh.size
    ensures |p.cells| == |p.notes| == |p.puzzle| && p.sh.size < 32
    ensures var q := p.Enter(i, digit);
      && OnlyCell(p, q, i)
      && if p.notesMode && p.cells[i] == 0 && digit != 0
         then q.cells[i] == 0 && forall v :: 0 <= v < 32 ==>
           (Has(q.notes[i], v) <==> (v == digit) != Has(p.notes[i], v))
         else q.notes[i] == 0 && q.cells[i] == if digit != 0 && digit != p.cells[i] then digit else 0
  {
    SizesMatch(p);
    SoundPage(p);
    hide Sound, Completions, Replay, Xor, Has;
    if p.notesMode && p.cells[i] == 0 && digit != 0 {
      forall v: nat | v < 32 ensures Has(Xor(p.notes[i], Bit(digit)), v) <==> (v == digit) != Has(p.notes[i], v) {
        HasToggle(p.notes[i], digit, v);
      }
    }
  }

  /** A cell that cannot be edited takes nothing. */
  lemma DigitInClosedCell(p: Play, i: nat, digit: nat)
    requires i < |p.puzzle| == |p.cells| == |p.notes| && p.historyPtr <= |p.history| && digit < 32 && !p.CanEdit(i)
    ensures p.Enter(i, digit) == p
  {
  }

  /**
    A cell can be edited exactly if it is no clue, the game is not solved nor marked
    so, and none is being generated.
   */
  lemma EditableIff(p: Play, i: nat)
    requires Sound(p) && i < |p.puzzle|
    ensures p.CanEdit(i) <==> p.puzzle[i] == 0 && p.cells != p.solution && !p.solvedAt && !p.generating
  {
    SizesMatch(p);
    if p.cells != p.solution { assert exists j :: 0 <= j < |p.cells| && p.cells[j] != p.solution[j]; }
  }

  /** Resetting puts the bare puzzle back with nothing played; only a game being generated is left alone. */
  lemma ResetResult(p: Play)
    requires Sound(p)
    ensures var q := p.Reset();
      if p.generating then q == p
      else
        && q.cells == p.puzzle && |q.notes| == |p.puzzle| && (forall j :: 0 <= j < |q.notes| ==> q.notes[j] == 0)
        && q.history == [] && q.historyPtr == 0 && !q.notesMode && !q.solvedAt && !q.generating
        && q.puzzle == p.puzzle && q.solution == p.solution && q.sh == p.sh
  {
    SizesMatch(p);
  }

  /** A delivered game is the bare new puzzle with nothing played, and keeps the solved mark. */
  lemma DeliveredGame(p: Play, sh: Shape, puzzle: Board, solution: Board)
    ensures var q := p.Deliver(sh, puzzle, solution);
      && q.sh == sh && q.puzzle == q.cells == puzzle && q.solution == solution
      && |q.notes| == |puzzle| && (forall j :: 0 <= j < |q.notes| ==> q.notes[j] == 0)
      && q.history == [] && q.historyPtr == 0 && !q.notesMode && !q.generating && q.solvedAt == p.solvedAt
  {
  }

  /** Asking for a game clears the mark and waits, once. */
  lemma AskedGame(p: Play)
    ensures p.generating ==> p.BeginNewGame() == p
    ensures !p.generating ==> p.BeginNewGame() == p.(generating := true, solvedAt := false)
  {
  }

  /** The solved mark is set exactly by noticing a board equal to the solution, and kept. */
  lemma MarkedIff(p: Play)
    requires Sound(p)
    ensures p.Watch() == p.(solvedAt := p.Watch().solvedAt)
    ensures p.Watch().solvedAt <==> p.solvedAt || p.cells == p.solution
  {
    SizesMatch(p);
    if p.cells != p.solution { assert exists j :: 0 <= j < |p.cells| && p.cells[j] != p.solution[j]; }
  }

  /** Hints fill empty cells as long as there are any, and only then correct wrong ones. */
  lemma HintsFillFirst(p: Play, i: nat)
    requires Sound(p) && |p.puzzle| == |p.cells| == |p.solution|
    ensures i in p.HintPool() <==>
      && i < |p.cells| && p.puzzle[i] == 0 && p.cells[i] != p.solution[i]
      && (p.cells[i] != 0 ==> forall j :: 0 <= j < |p.cells| ==> p.cells[j] != 0)
  {
    PuzzleInRange(p);
    SoundPage(p);
    hide Sound, Completions, Replay;
    forall j | 0 <= j < |p.cells| && p.cells[j] == 0 ensures !p.Fixed(j) && p.cells[j] != p.solution[j] { }
    var empties := set j: nat | j < |p.cells| && !p.Fixed(j) && p.cells[j] == 0;
    if empties == {} {
      forall j: nat | j < |p.cells| ensures p.cells[j] != 0 {
        assert j !in empties;
      }
    } else {
      var j :| j in empties;
      assert p.cells[j] == 0;
    }
  }

  /** A hint writes the solution's digit into its cell, clears the notes there, and touches nothing else. */
  lemma HintResult(p: Play, i: nat)
    requires Hintable(p) && |p.puzzle| == |p.cells| == |p.solution| && i in p.HintPool()
    ensures |p.notes| == |p.cells|
    ensures var q := p.HintAt(i); OnlyCell(p, q, i) && q.cells[i] == p.solution[i] && q.notes[i] == 0
  {
    SizesMatch(p);
  }

  /** Some digit on the keypad, typed into some cell, changes the game. */
  ghost predicate TakesDigits(p: Play)
    requires |p.puzzle| == |p.cells| == |p.notes| == |p.solution| && p.historyPtr <= |p.history| && p.sh.size < 32
  {
    exists i: nat, digit: nat :: i < |p.puzzle| && 1 <= digit <= p.sh.size && p.Enter(i, digit) != p
  }

  ghost predicate TakesHints(p: Play)
    requires |p.puzzle| == |p.cells| == |p.notes| == |p.solution| && p.historyPtr <= |p.history|
  {
    exists i :: i in p.HintPool() && p.HintAt(i) != p
  }

  /**
    An unsolved game takes digits, and takes hints, exactly if the solved mark is
    not set and no new game is being generated.
   */
  lemma UnsolvedGameIsOpenIff(p: Play)
    requires Sound(p) && !p.IsSolved()
    ensures |p.puzzle| == |p.cells| == |p.notes| == |p.solution| && p.sh.size < 32
    ensures TakesDigits(p) <==> !p.solvedAt && !p.generating
    ensures TakesHints(p) <==> !p.solvedAt && !p.generating
  {
    SizesMatch(p);
    HintPoolIsRight(p);
    hide Sound, Completions, Full, NoClash;
    if !p.solvedAt && !p.generating {
      var i :| i in p.HintPool();
      HintCorrectsOneCell(p, i);
      assert p.HintAt(i) != p;
      assert p.sh.size >= 1 by { Positive(p.sh.boxSize); }
      DigitIsRecorded(p, i, 1);
      assert p.CanEdit(i) && p.Enter(i, 1) != p;
    }
  }

  /** From any playable game with one cell left to correct: the hint that solves it, noticed, then undone, locks it. */
  lemma LockIsReachable(p: Play, i: nat)
    requires Hintable(p) && |p.cells| == |p.solution| && Wrong(p) == {i}
    ensures |p.puzzle| == |p.cells| == |p.notes| && i in p.HintPool()
    ensures var won := p.HintAt(i).Watch();
      && won.CanUndo() && won.history[won.historyPtr - 1].idx < |won.cells| == |won.notes| == |won.solution| ==
        |won.puzzle|
      && won.IsSolved()
      && var q := won.Undo();
         Sound(q) && !q.IsSolved() && q.solvedAt && q.cells == p.cells && q.notes == p.notes
  {
    SizesMatch(p);
    HintPoolIsRight(p);
    var j :| j in p.HintPool();
    assert j == i;
    HintCorrectsOneCell(p, i);
    var h := p.HintAt(i);
    HintPoolIsRight(h);
    var won := h.Watch();
    SizesMatch(won);
    UndoKeepsSound(won);
    var q := won.Undo();
    assert q.cells == p.cells && q.notes == p.notes;
  }

  /** A delivered game can be played exactly if the solved mark was not set while it was being generated. */
  lemma NewGameIsOpenIff(p: Play, sh: Shape, puzzle: Board, solution: Board, i: nat)
    requires sh.Valid() && sh.IsBoard(puzzle) && Completions(sh, puzzle) == {solution}
    requires i < |puzzle| && puzzle[i] == 0
    ensures var q := p.Deliver(sh, puzzle, solution);
      |q.puzzle| == |q.cells| == |q.solution| && (q.CanEdit(i) <==> !p.solvedAt)
  {
    var q := p.Deliver(sh, puzzle, solution);
    StartedIsSound(sh, puzzle, solution);
    SizesMatch(q);
    SolvedIffFullAndClashFree(q);
    assert !Full(q.cells);
  }

  /** It can be: solve, undo, ask for a new game, and redo before it arrives. */
  lemma LateRedoLocksTheNewGame(p: Play, sh: Shape, puzzle: Board, solution: Board, i: nat)
    requires Sound(p) && p.IsSolved() && p.CanUndo() && !p.generating
    requires sh.Valid() && sh.IsBoard(puzzle) && Completions(sh, puzzle) == {solution}
    requires i < |puzzle| && puzzle[i] == 0
    ensures p.history[p.historyPtr - 1].idx < |p.cells| == |p.notes|
    ensures var asked := p.Watch().Undo().BeginNewGame();
      && asked.generating && !asked.solvedAt && asked.CanRedo()
      && asked.history[asked.historyPtr].idx < |asked.cells| == |asked.notes|
      && var q := asked.Redo().Watch().Deliver(sh, puzzle, solution);
         |q.puzzle| == |q.cells| == |q.solution| && !q.generating && !q.CanEdit(i)
  {
    hide Replay, HistoryFits, Completions;
    SizesMatch(p);
    UndoThenRedo(p);
    var asked := p.Watch().Undo().BeginNewGame();
    assert asked.Redo() == p.(generating := true, solvedAt := false);
    NewGameIsOpenIff(asked.Redo().Watch(), sh, puzzle, solution, i);
  }

  // ------------------------------------------------------------------ the component's mutable state

  class Game {
    var sh: Shape
    var puzzle: seq<int>
    var solution: seq<int>
    var cells: seq<int>
    var fixed: seq<bool>
    var notes: seq<Mask>
    var notesMode: bool
    var hintsUsed: nat
    var history: seq<Action>
    var historyPtr: nat
    var solvedAt: bool
    var generating: bool

    ghost function State(): Play
      reads this
    {
      Play(sh, puzzle, solution, cells, notes, history, historyPtr, notesMode, solvedAt, generating)
    }

    ghost predicate Valid()
      reads this
    {
      && Sound(State())
      && |fixed| == |puzzle| && forall i :: 0 <= i < |puzzle| ==> (fixed[i] <==> puzzle[i] != 0)
    }

    /** A new game, from the generator; its uniqueness is what makes the game sound. */
    constructor (sh: Shape, d: Difficulty, rng: Random)
      requires Offered(sh)
      modifies rng`next
      ensures Valid() && this.sh == sh && !generating && !solvedAt
      ensures State() == Started(sh, puzzle, solution)
    {
      var p, carved := Generate(sh, d, rng);
      this.sh := sh;
      puzzle, solution, cells := p.puzzle, p.solution, p.puzzle;
      fixed := seq(|p.puzzle|, i requires 0 <= i < |p.puzzle| => p.puzzle[i] != 0);
      notes := NoNotes(|p.puzzle|);
      history, historyPtr, hintsUsed := [], 0, 0;
      notesMode, solvedAt, generating := false, false, false;
      new;
      StartedIsSound(sh, puzzle, solution);
    }

    method NewGameAsked() returns (accepted: bool)
      requires Valid()
      modifies this
      ensures Valid() && State() == old(State()).BeginNewGame()
      ensures accepted == !old(generating)
    {
      accepted := !generating;
      if generating { return; }
      generating, solvedAt := true, false;
    }

    method NewGameReady(sh: Shape, d: Difficulty, rng: Random)
      requires Valid() && generating && Offered(sh)
      modifies this, rng`next
      ensures Valid() && State() == old(State()).Deliver(sh, puzzle, solution)
      ensures |Clues(puzzle)| >= ClueTarget(sh.size, d) && hintsUsed == 0
    {
      var p, carved := Generate(sh, d, rng);
      Adopt(sh, p);
    }

    method Adopt(sh: Shape, p: Puzzle)
      requires sh.Valid() && sh.IsBoard(p.puzzle) && Completions(sh, p.puzzle) == {p.solution}
      modifies this
      ensures Valid() && State() == old(State()).Deliver(sh, p.puzzle, p.solution) && hintsUsed == 0
    {
      StartedIsSound(sh, p.puzzle, p.solution);
      this.sh := sh;
      puzzle, solution := p.puzzle, p.solution;
      fixed := seq(|p.puzzle|, i requires 0 <= i < |p.puzzle| => p.puzzle[i] != 0);
      Restart();
    }

    /** Puts the puzzle on the board with nothing played. */
    method Restart()
      requires Sound(Started(sh, puzzle, solution))
      requires |fixed| == |puzzle| && forall i :: 0 <= i < |puzzle| ==> (fixed[i] <==> puzzle[i] != 0)
      modifies this`cells, this`notes, this`history, this`historyPtr, this`hintsUsed, this`notesMode, this`generating
      ensures Valid() && State() == old(State()).Deliver(sh, puzzle, solution) && hintsUsed == 0
    {
      cells := puzzle;
      notes := NoNotes(|puzzle|);
      history, historyPtr, hintsUsed := [], 0, 0;
      notesMode, generating := false, false;
    }

    method IsSolved() returns (ok: bool)
      requires Valid()
      ensures ok <==> State().IsSolved()
    {
      SizesMatch(State());
      if |solution| == 0 { return false; }
      for i := 0 to |cells|
        invariant forall j :: 0 <= j < i ==> cells[j] == solution[j]
      {
        if cells[i] != solution[i] { return false; }
      }
      return true;
    }

    method PushAction(action: Action)
      requires historyPtr <= |history|
      modifies this`history, this`historyPtr
      ensures history == old(history)[..old(historyPtr)] + [action] && historyPtr == old(historyPtr) + 1
    {
      if historyPtr < |history| { history := history[..historyPtr]; }
      history := history + [action];
      historyPtr := |history|;
    }

    method ApplyAction(action: Action, forward: bool)
      requires action.idx < |cells| && action.idx < |notes|
      modifies this`cells, this`notes
      ensures cells == old(cells)[action.idx := if forward then action.nextValue else action.prevValue]
      ensures notes == old(notes)[action.idx := if forward then action.nextNotes else action.prevNotes]
    {
      var nextValue := if forward then action.nextValue else action.prevValue;
      var nextNotes := if forward then action.nextNotes else action.prevNotes;
      cells := cells[action.idx := nextValue];
      notes := notes[action.idx := nextNotes];
    }

    /** Records an action and performs it, as every edit does. */
    method DoAction(action: Action)
      requires action.idx < |cells| && action.idx < |notes| && historyPtr <= |history|
      modifies this`cells, this`notes, this`history, this`historyPtr
      ensures State() == old(State()).Do(action)
    {
      PushAction(action);
      ApplyAction(action, true);
    }

    /** Back to the page before the last action. */
    method Undo()
      requires Valid()
      modifies this`cells, this`notes, this`historyPtr
      ensures Valid()
      ensures old(historyPtr) == 0 ==> State() == old(State())
      ensures old(historyPtr) > 0 ==> historyPtr == old(historyPtr) - 1 && UndoThenRedoIs(State(), old(State()))
    {
      hide Replay, HistoryFits, Completions;
      UndoKeepsSound(State());
      if !(historyPtr > 0) { return; }
      UndoThenRedo(State());
      var action := history[historyPtr - 1];
      ApplyAction(action, false);
      historyPtr := historyPtr - 1;
    }

    method Redo()
      requires Valid()
      modifies this`cells, this`notes, this`historyPtr
      ensures Valid()
      ensures old(historyPtr) == |history| ==> State() == old(State())
      ensures old(historyPtr) < |history| ==> historyPtr == old(historyPtr) + 1 && RedoThenUndoIs(State(), old(State()))
    {
      hide Replay, HistoryFits, Completions;
      RedoKeepsSound(State());
      if !(historyPtr < |history|) { return; }
      RedoThenUndo(State());
      var action := history[historyPtr];
      ApplyAction(action, true);
      historyPtr := historyPtr + 1;
    }

    method CanEdit(idx: nat) returns (ok: bool)
      requires Valid() && idx < |puzzle|
      ensures ok <==> State().CanEdit(idx)
    {
      var solved := IsSolved();
      ok := !fixed[idx] && !solvedAt && !solved && !generating;
    }

    /** Types a digit, or 0 to erase. */
    method SetCellValue(idx: nat, digit: nat)
      requires Valid() && idx < |puzzle| && digit <= sh.size
      modifies this`cells, this`notes, this`history, this`historyPtr
      ensures Valid() && State() == old(State()).Enter(idx, digit)
    {
      hide Replay, HistoryFits, Completions;
      SizesMatch(State());
      EnterKeepsSound(State(), idx, digit);
      SoundPage(State());
      var ok := CanEdit(idx);
      if !ok { return; }
      var prevValue := cells[idx];
      var prevNotes := notes[idx];
      var isEmpty := prevValue == 0;
      if notesMode && isEmpty && digit != 0 {
        var bit := Bit(digit);
        var nextNotes := Xor(prevNotes, bit);
        ToggleChanges(prevNotes, digit);
        if nextNotes == prevNotes { return; }
        DoAction(Action(idx, prevValue, prevValue, prevNotes, nextNotes));
        return;
      }
      var nextValue := if digit == prevValue then 0 else digit;
      var nextNotes := 0;
      if nextValue == prevValue && nextNotes == prevNotes { return; }
      DoAction(Action(idx, prevValue, nextValue, prevNotes, nextNotes));
    }

    method ResetPuzzle()
      requires Valid()
      modifies this
      ensures Valid() && State() == old(State()).Reset() && puzzle == old(puzzle) && solution == old(solution)
    {
      SizesMatch(State());
      if |puzzle| == 0 || generating { return; }
      StartedIsSound(sh, puzzle, solution);
      Restart();
      solvedAt := false;
    }

    /** Fills an empty cell, or corrects a wrong one when none is empty. */
    method Hint(rng: Random)
      requires Valid()
      modifies this, rng`next
      ensures Valid()
      ensures |old(puzzle)| == |old(cells)| == |old(solution)| == |old(notes)|
      ensures (old(generating) || old(solvedAt) || old(State()).HintPool() == {}) ==>
        State() == old(State()) && hintsUsed == old(hintsUsed)
      ensures !(old(generating) || old(solvedAt) || old(State()).HintPool() == {}) ==>
        HintStep(old(State()), State()) && hintsUsed == old(hintsUsed) + 1
    {
      SizesMatch(State());
      if |solution| == 0 || generating || solvedAt { return; }
      ghost var p := State();
      var pool := CollectPool();
      if |pool| == 0 { return; }
      var pick := rng.RandInt(|pool|);
      var idx := pool[pick];
      assert idx in pool;
      HintKeepsSound(p, idx);
      DoAction(Action(idx, cells[idx], solution[idx], notes[idx], 0));
      hintsUsed := hintsUsed + 1;
      assert State() == p.HintAt(idx);
    }

    method CollectPool() returns (pool: seq<nat>)
      requires Valid() && |puzzle| == |cells| == |solution|
      ensures forall j :: j in pool <==> j in State().HintPool()
      ensures |pool| == 0 <==> State().HintPool() == {}
    {
      ghost var p := State();
      var empties: seq<nat>, wrong: seq<nat> := [], [];
      for i := 0 to |cells|
        invariant forall j :: j in empties <==> 0 <= j < i && !p.Fixed(j) && cells[j] == 0
        invariant forall j :: j in wrong <==> 0 <= j < i && !p.Fixed(j) && cells[j] != 0 && cells[j] != solution[j]
      {
        if fixed[i] { continue; }
        var cur, sol := cells[i], solution[i];
        if cur == 0 {
          empties := empties + [i];
        } else if cur != sol {
          wrong := wrong + [i];
        }
      }
      pool := if |empties| != 0 then empties else wrong;
      PoolIsHintPool(p, empties, wrong, pool);
    }

    /** The watcher on isSolved. */
    method SolvedWatcher()
      requires Valid()
      modifies this`solvedAt
      ensures Valid() && State() == old(State()).Watch()
    {
      var ok := IsSolved();
      if ok && !solvedAt { solvedAt := true; }
    }
  }

  ghost predicate UndoThenRedoIs(now: Play, before: Play) {
    && Filed(now) && now.CanRedo()
    && now.history[now.historyPtr].idx < |now.cells| == |now.notes|
    && now.Redo() == before
  }

  ghost predicate RedoThenUndoIs(now: Play, before: Play) {
    && Filed(now) && now.CanUndo()
    && now.history[now.historyPtr - 1].idx < |now.cells| == |now.notes|
    && now.Undo() == before
  }

  lemma ToggleChanges(m: Mask, d: nat)
    requires d < 32
    ensures Xor(m, Bit(d)) != m
  {
    HasToggle(m, d, d);
  }

  lemma PoolIsHintPool(p: Play, empties: seq<nat>, wrong: seq<nat>, pool: seq<nat>)
    requires |p.puzzle| == |p.cells| == |p.solution|
    requires forall j :: j in empties <==> 0 <= j < |p.cells| && !p.Fixed(j) && p.cells[j] == 0
    requires forall j :: j in wrong <==>
      0 <= j < |p.cells| && !p.Fixed(j) && p.cells[j] != 0 && p.cells[j] != p.solution[j]
    requires pool == if |empties| != 0 then empties else wrong
    ensures forall j :: j in pool <==> j in p.HintPool()
    ensures |pool| == 0 <==> p.HintPool() == {}
  {
    var e := set i: nat | i < |p.cells| && !p.Fixed(i) && p.cells[i] == 0;
    if |empties| != 0 {
      assert empties[0] in empties && empties[0] in e;
    } else {
      assert e == {};
    }
    if |pool| != 0 { assert pool[0] in pool && pool[0] in p.HintPool(); }
  }
}
