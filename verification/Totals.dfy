/** Sums over the men of a placement, and how overwriting one square changes them. */
module Totals {
  import opened Types
  import opened Position
  import opened Making

  /** The sum of a weight over the first squares of a board. */
  ghost function Total(at: seq<Piece>, weight: (Piece, int) -> int): int {
    if at == [] then 0 else Total(at[..|at| - 1], weight) + weight(at[|at| - 1], |at| - 1)
  }

  lemma {:induction false} TotalUpdate(at: seq<Piece>, weight: (Piece, int) -> int, s: int, x: Piece)
    requires 0 <= s < |at|
    ensures Total(at[s := x], weight) == Total(at, weight) - weight(at[s], s) + weight(x, s)
  {
    var last := |at| - 1;
    if s == last {
      assert at[s := x][..last] == at[..last];
    } else {
      assert at[s := x][..last] == at[..last][s := x];
      TotalUpdate(at[..last], weight, s, x);
    }
  }

  lemma {:induction false} TotalWithin(at: seq<Piece>, weight: (Piece, int) -> int, most: nat)
    requires forall x, i :: 0 <= i < |at| ==> 0 <= weight(x, i) <= most
    ensures 0 <= Total(at, weight) <= most * |at|
  {
    if at != [] {
      TotalWithin(at[..|at| - 1], weight, most);
    }
  }

  /** The set of a board's first n squares that hold a given piece has the size of the sum. */
  lemma {:induction false} TotalCounts(at: Placement, n: nat, c: Color, k: Kind)
    requires n <= 64
    ensures |set s: Square | s < n && at[s] == Man(c, k)| == Total(at[..n], Counts(c, k))
  {
    var below := set s: Square | s < n && at[s] == Man(c, k);
    if n == 0 {
      assert below == {};
    } else {
      TotalCounts(at, n - 1, c, k);
      TotalStep(at, n - 1, Counts(c, k));
      CountStep(at, n - 1, Man(c, k));
      hide Total;
    }
  }

  lemma TotalStep(at: Placement, n: nat, weight: (Piece, int) -> int)
    requires n < 64
    ensures Total(at[..n + 1], weight) == Total(at[..n], weight) + weight(at[n], n)
  {
    assert at[..n + 1][..n] == at[..n];
  }

  lemma CountStep(at: Placement, n: Square, x: Piece)
    ensures |set s: Square | s < n + 1 && at[s] == x| ==
            |set s: Square | s < n && at[s] == x| + if at[n] == x then 1 else 0
  {
    var more, before := set s: Square | s < n + 1 && at[s] == x, set s: Square | s < n && at[s] == x;
    assert more == if at[n] == x then before + {n} else before;
  }

  function Counts(c: Color, k: Kind): (Piece, int) -> int {
    (x: Piece, _: int) => if x == Man(c, k) then 1 else 0
  }

  lemma CountOf(at: Placement, c: Color, k: Kind)
    ensures |Of(at, c, k)| == Total(at, Counts(c, k))
  {
    TotalCounts(at, 64, c, k);
    assert at[..64] == at;
    assert Of(at, c, k) == set s: Square | s < 64 && at[s] == Man(c, k);
  }

  // ---- What a move does to a sum -------------------------------------------------

  function RookShift(m: Move, weight: (Piece, int) -> int): int {
    var rook := CastlingRook(m.to);
    if m.castle && rook.Some? then
      weight(Man(rook.value.2, Rook), rook.value.1) - weight(Man(rook.value.2, Rook), rook.value.0)
    else 0
  }

  function CaptureShift(p: Pos, m: Move, weight: (Piece, int) -> int): int {
    (if IsCapture(m) then -weight(Taken(p, m).0, Taken(p, m).1) else 0)
    + (if Reprisons(p, m) then weight(Man(Opposite(p.side), Queen), Prison(Opposite(p.side))) else 0)
  }

  lemma CaptureTotal(p: Pos, m: Move, weight: (Piece, int) -> int)
    requires Fits(p, m) && forall i :: weight(Empty, i) == 0
    ensures Total(AfterCapture(p, m), weight) == Total(p.at, weight) + CaptureShift(p, m, weight)
  {
    if m.ep {
      TotalUpdate(p.at, weight, Victim(m), Empty);
    } else if IsCapture(m) {
      TotalUpdate(p.at, weight, m.to, Empty);
      if Reprisons(p, m) {
        var them := Opposite(p.side);
        TotalUpdate(p.at[m.to := Empty], weight, Prison(them), Man(them, Queen));
      }
    }
  }

  lemma StepTotal(p: Pos, m: Move, weight: (Piece, int) -> int)
    requires Fits(p, m) && forall i :: weight(Empty, i) == 0
    ensures Total(AfterStep(p, m), weight) ==
            Total(AfterCapture(p, m), weight) - weight(p.at[m.from], m.from) + weight(Arrival(p, m), m.to)
  {
    var a := AfterCapture(p, m);
    assert a[m.from] == p.at[m.from] && a[m.to] == Empty;
    TotalUpdate(a, weight, m.from, Empty);
    TotalUpdate(a[m.from := Empty], weight, m.to, Arrival(p, m));
  }

  lemma CarryTotal(p: Pos, m: Move, weight: (Piece, int) -> int)
    requires Fits(p, m) && forall i :: weight(Empty, i) == 0
    ensures Total(AfterMove(p, m), weight) == Total(AfterStep(p, m), weight) + RookShift(m, weight)
  {
    if m.castle {
      var rook := CastlingRook(m.to).value;
      var a := AfterStep(p, m);
      assert a[rook.0] == Man(rook.2, Rook) && a[rook.1] == Empty;
      TotalUpdate(a, weight, rook.0, Empty);
      TotalUpdate(a[rook.0 := Empty], weight, rook.1, Man(rook.2, Rook));
    }
  }

  /** The sum changes by the mover's step, the captured man, a re-imprisoned queen and a castling rook. */
  lemma MoveTotal(p: Pos, m: Move, weight: (Piece, int) -> int)
    requires Fits(p, m) && forall i :: weight(Empty, i) == 0
    ensures Total(AfterMove(p, m), weight) ==
            Total(p.at, weight) - weight(Man(p.side, m.piece), m.from) + weight(Arrival(p, m), m.to)
            + CaptureShift(p, m, weight) + RookShift(m, weight)
  {
    hide CaptureShift, RookShift, AfterStep, AfterCapture, AfterMove;
    CaptureTotal(p, m, weight);
    StepTotal(p, m, weight);
    CarryTotal(p, m, weight);
  }
}
