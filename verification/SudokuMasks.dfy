/**
  The engine's mask table: one word per row, column and box, kept in step with a
  board that the search fills and empties in place.
 */
module SudokuMasks {
  import opened Bits
  import opened SudokuGrid

  /** Some cell of b in unit u of this kind holds v. */
  ghost predicate Held(sh: Shape, kind: Kind, b: Board, u: nat, v: int)
    requires sh.Valid()
  {
    exists i :: 0 <= i < |b| && sh.Unit(kind, i) == u && b[i] == v
  }

  /** Bit v of a unit's mask is set iff some cell of that unit holds digit v. */
  ghost predicate UnitMasksExact(sh: Shape, kind: Kind, masks: seq<Mask>, b: Board)
    requires sh.Valid()
  {
    && |masks| == sh.size
    && forall u: nat, v: nat :: u < sh.size && v < 32 ==>
         (Has(masks[u], v) <==> 1 <= v && Held(sh, kind, b, u, v))
  }

  function WithBit(masks: seq<Mask>, u: nat, v: nat): seq<Mask>
    requires u < |masks| && v < 32
  {
    masks[u := Or(masks[u], Bit(v))]
  }

  function WithoutBit(masks: seq<Mask>, u: nat, v: nat): seq<Mask>
    requires u < |masks| && v < 32
  {
    masks[u := And(masks[u], Not(Bit(v)))]
  }

  lemma ExactAfterPlace(sh: Shape, kind: Kind, masks: seq<Mask>, b: Board, i: nat, v: nat)
    requires sh.Valid() && UnitMasksExact(sh, kind, masks, b)
    requires i < |b| && b[i] == 0 && 1 <= v <= sh.size && sh.Unit(kind, i) < sh.size
    ensures UnitMasksExact(sh, kind, WithBit(masks, sh.Unit(kind, i), v), b[i := v])
  {
    var u0, c := sh.Unit(kind, i), b[i := v];
    forall u: nat, w: nat | u < sh.size && w < 32
      ensures Has(WithBit(masks, u0, v)[u], w) <==> 1 <= w && Held(sh, kind, c, u, w)
    {
      HasOr(masks[u], Bit(v), w);
      HasOwnBit(w, v);
      HeldAfterSet(sh, kind, b, i, v, u, w);
    }
  }

  lemma HeldAfterSet(sh: Shape, kind: Kind, b: Board, i: nat, v: nat, u: nat, w: nat)
    requires sh.Valid() && i < |b| && b[i] == 0 && 1 <= v
    ensures 1 <= w ==>
      (Held(sh, kind, b[i := v], u, w) <==> Held(sh, kind, b, u, w) || (u == sh.Unit(kind, i) && w == v))
  {
    var c := b[i := v];
    if 1 <= w {
      if Held(sh, kind, b, u, w) {
        var j :| 0 <= j < |b| && sh.Unit(kind, j) == u && b[j] == w;
        assert c[j] == w;
      }
      if u == sh.Unit(kind, i) && w == v { assert c[i] == w; }
    }
  }

  lemma ExactAfterAppend(sh: Shape, kind: Kind, masks: seq<Mask>, b: Board, v: nat)
    requires sh.Valid() && UnitMasksExact(sh, kind, masks, b)
    requires v <= sh.size && sh.Unit(kind, |b|) < sh.size
    ensures UnitMasksExact(sh, kind, if v == 0 then masks else WithBit(masks, sh.Unit(kind, |b|), v), b + [v])
  {
    forall u: nat, w: nat | u < sh.size && 1 <= w < 32
      ensures Held(sh, kind, b + [0], u, w) <==> Held(sh, kind, b, u, w)
    {
      if Held(sh, kind, b, u, w) {
        var j :| 0 <= j < |b| && sh.Unit(kind, j) == u && b[j] == w;
        assert (b + [0])[j] == w;
      }
    }
    assert UnitMasksExact(sh, kind, masks, b + [0]);
    if v != 0 {
      ExactAfterPlace(sh, kind, masks, b + [0], |b|, v);
      assert (b + [0])[|b| := v] == b + [v];
    }
  }

  class Masks {
    const row: array<Mask>
    const col: array<Mask>
    const box: array<Mask>

    ghost predicate Sized(n: nat) {
      && row.Length == n && col.Length == n && box.Length == n
      && row != col && row != box && col != box
    }

    /** Every mask says exactly which digits its unit holds. */
    ghost predicate Exact(sh: Shape, b: Board)
      requires sh.Valid()
      reads row, col, box
    {
      && Sized(sh.size)
      && UnitMasksExact(sh, RowUnit, row[..], b)
      && UnitMasksExact(sh, ColUnit, col[..], b)
      && UnitMasksExact(sh, BoxUnit, box[..], b)
    }

    constructor (n: nat)
      ensures fresh(row) && fresh(col) && fresh(box) && Sized(n)
      ensures row[..] == seq(n, _ => 0) && col[..] == seq(n, _ => 0) && box[..] == seq(n, _ => 0)
    {
      row := new Mask[n](_ => 0);
      col := new Mask[n](_ => 0);
      box := new Mask[n](_ => 0);
    }

    function CandidateMask(sh: Shape, idx: nat): Mask
      requires sh.Valid() && idx < sh.Cells() && Sized(sh.size)
      reads row, col, box
    {
      UnitsInRange(sh, idx);
      And(FullMask(sh.size), Not(Or(Or(row[sh.Row(idx)], col[sh.Col(idx)]), box[sh.Box(idx)])))
    }

    /** The candidate mask of an empty cell is exactly its set of legal digits. */
    lemma CandidateMaskExact(sh: Shape, b: Board, idx: nat)
      requires sh.Valid() && sh.IsBoard(b) && idx < |b| && b[idx] == 0 && Exact(sh, b)
      ensures BitsOf(CandidateMask(sh, idx)) == Candidates(sh, b, idx)
    {
      UnitsInRange(sh, idx);
      var r, c, x := row[sh.Row(idx)], col[sh.Col(idx)], box[sh.Box(idx)];
      forall v: nat | v < 32
        ensures Has(CandidateMask(sh, idx), v) <==> 1 <= v <= sh.size && Fits(sh, b, idx, v)
      {
        HasAnd(FullMask(sh.size), Not(Or(Or(r, c), x)), v);
        HasFull(sh.size, v);
        HasNot(Or(Or(r, c), x), v);
        HasOr(Or(r, c), x, v);
        HasOr(r, c, v);
        if 1 <= v { FitsIffHeldNowhere(sh, b, idx, v); }
      }
    }

    lemma FitsIffHeldNowhere(sh: Shape, b: Board, idx: nat, v: nat)
      requires sh.Valid() && sh.IsBoard(b) && idx < |b| && b[idx] == 0 && 1 <= v
      ensures Fits(sh, b, idx, v) <==>
        !Held(sh, RowUnit, b, sh.Row(idx), v) && !Held(sh, ColUnit, b, sh.Col(idx), v) &&
          !Held(sh, BoxUnit, b, sh.Box(idx), v)
    {
      if Held(sh, RowUnit, b, sh.Row(idx), v) {
        var j :| 0 <= j < |b| && sh.Unit(RowUnit, j) == sh.Row(idx) && b[j] == v;
        assert sh.Peers(idx, j);
      }
      if Held(sh, ColUnit, b, sh.Col(idx), v) {
        var j :| 0 <= j < |b| && sh.Unit(ColUnit, j) == sh.Col(idx) && b[j] == v;
        assert sh.Peers(idx, j);
      }
      if Held(sh, BoxUnit, b, sh.Box(idx), v) {
        var j :| 0 <= j < |b| && sh.Unit(BoxUnit, j) == sh.Box(idx) && b[j] == v;
        assert sh.Peers(idx, j);
      }
      if !Fits(sh, b, idx, v) {
        var j :| 0 <= j < |b| && sh.Peers(idx, j) && b[j] == v;
        assert sh.Unit(RowUnit, j) == sh.Row(idx) || sh.Unit(ColUnit, j) == sh.Col(idx) ||
          sh.Unit(BoxUnit, j) == sh.Box(idx);
      }
    }
  }
}
