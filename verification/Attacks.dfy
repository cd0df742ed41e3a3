/** Which squares a man controls. The generators walk rays cell by cell; here control is
    stated from the geometry: aligned, with nothing strictly between. */
module Attacks {
  import opened Types
  import opened Bitboards
  import opened Position

  function Dir(c: Color): int { if c == White then 1 else -1 }

  predicate KingStep(a: Square, b: Square) {
    a != b && Abs(Row(b) - Row(a)) <= 1 && Abs(Col(b) - Col(a)) <= 1
  }

  predicate KnightStep(a: Square, b: Square) {
    var dr, dc := Abs(Row(b) - Row(a)), Abs(Col(b) - Col(a));
    (dr == 1 && dc == 2) || (dr == 2 && dc == 1)
  }

  predicate PawnStep(c: Color, a: Square, b: Square) {
    Row(b) == Row(a) + Dir(c) && Abs(Col(b) - Col(a)) == 1
  }

  /** k cells from x in the direction in which d points. */
  function Along(x: int, d: int, k: int): int { if d > 0 then x + k else if d < 0 then x - k else x }

  /** The index of the k-th cell on the way from a towards b. */
  function CellAt(a: Square, b: Square, k: int): int {
    8 * Along(Row(a), Row(b) - Row(a), k) + Along(Col(a), Col(b) - Col(a), k)
  }

  function Distance(a: Square, b: Square): nat {
    var dr, dc := Abs(Row(b) - Row(a)), Abs(Col(b) - Col(a));
    if dr < dc then dc else dr
  }

  predicate Diagonal(a: Square, b: Square) { a != b && Abs(Row(b) - Row(a)) == Abs(Col(b) - Col(a)) }

  predicate Orthogonal(a: Square, b: Square) { a != b && (Row(a) == Row(b) || Col(a) == Col(b)) }

  predicate ClearBetween(a: Square, b: Square, occ: Bitboard) {
    forall k :: 0 < k < Distance(a, b) ==> CellAt(a, b, k) !in occ
  }

  predicate BishopReach(a: Square, b: Square, occ: Bitboard) { Diagonal(a, b) && ClearBetween(a, b, occ) }

  predicate RookReach(a: Square, b: Square, occ: Bitboard) { Orthogonal(a, b) && ClearBetween(a, b, occ) }

  function KingTargets(a: Square): Bitboard { set b: Square | KingStep(a, b) }

  function KnightTargets(a: Square): Bitboard { set b: Square | KnightStep(a, b) }

  function PawnTargets(c: Color, a: Square): Bitboard { set b: Square | PawnStep(c, a, b) }

  function BishopTargets(a: Square, occ: Bitboard): Bitboard { set b: Square | BishopReach(a, b, occ) }

  function RookTargets(a: Square, occ: Bitboard): Bitboard { set b: Square | RookReach(a, b, occ) }

  /** Sliding is symmetric for every occupancy, so a lookup from the target finds the attacker. */
  lemma SlideSymmetric(a: Square, b: Square, occ: Bitboard)
    ensures BishopReach(a, b, occ) == BishopReach(b, a, occ)
    ensures RookReach(a, b, occ) == RookReach(b, a, occ)
  {
    if Diagonal(a, b) || Orthogonal(a, b) {
      ClearReversed(a, b, occ);
      ClearReversed(b, a, occ);
    }
  }

  lemma ClearReversed(a: Square, b: Square, occ: Bitboard)
    requires Diagonal(a, b) || Orthogonal(a, b)
    ensures ClearBetween(a, b, occ) ==> ClearBetween(b, a, occ)
  {
    forall k | 0 < k < Distance(b, a) ensures CellAt(b, a, k) == CellAt(a, b, Distance(a, b) - k) {
    }
  }

  // ---- Rays --------------------------------------------------------------

  /** The cells from (r, c) on, up to and including the first occupied one. */
  function Ray(r: int, c: int, dr: int, dc: int, occ: Bitboard): Bitboard
    requires IsDirection(dr, dc)
    decreases if dr > 0 then 8 - r else if dr < 0 then r + 1 else if dc > 0 then 8 - c else c + 1
  {
    if !OnBoard(r, c) then {}
    else {Sq(r, c)} + if Sq(r, c) in occ then {} else Ray(r + dr, c + dc, dr, dc, occ)
  }

  /** b lies in direction (dr, dc) from a, at distance k or more, with the cells from k on clear. */
  predicate Ahead(a: Square, b: Square, dr: int, dc: int, k: int, occ: Bitboard) {
    && Heading(a, b, dr, dc)
    && k <= Distance(a, b)
    && forall j :: k <= j < Distance(a, b) ==> CellAt(a, b, j) !in occ
  }

  predicate Heading(a: Square, b: Square, dr: int, dc: int) {
    && a != b
    && Along(Row(a), dr, Distance(a, b)) == Row(b)
    && Along(Col(a), dc, Distance(a, b)) == Col(b)
  }

  predicate IsDirection(dr: int, dc: int) { (dr != 0 || dc != 0) && -1 <= dr <= 1 && -1 <= dc <= 1 }

  lemma HeadingCell(a: Square, b: Square, dr: int, dc: int, k: nat)
    requires IsDirection(dr, dc) && Heading(a, b, dr, dc) && 1 <= k <= Distance(a, b)
    ensures OnBoard(Along(Row(a), dr, k), Along(Col(a), dc, k))
    ensures CellAt(a, b, k) == Sq(Along(Row(a), dr, k), Along(Col(a), dc, k))
    ensures k == Distance(a, b) ==> CellAt(a, b, k) == b
  {
  }

  lemma CellHeading(a: Square, dr: int, dc: int, k: nat)
    requires IsDirection(dr, dc) && 1 <= k && OnBoard(Along(Row(a), dr, k), Along(Col(a), dc, k))
    ensures k < 8
    ensures var cell := Sq(Along(Row(a), dr, k), Along(Col(a), dc, k));
            Distance(a, cell) == k && Heading(a, cell, dr, dc)
  {
  }

  lemma RayStep(r: int, c: int, dr: int, dc: int, occ: Bitboard)
    requires IsDirection(dr, dc)
    ensures !OnBoard(r, c) ==> Ray(r, c, dr, dc, occ) == {}
    ensures OnBoard(r, c) && Sq(r, c) in occ ==> Ray(r, c, dr, dc, occ) == {Sq(r, c)}
    ensures OnBoard(r, c) && Sq(r, c) !in occ ==>
            Ray(r, c, dr, dc, occ) == {Sq(r, c)} + Ray(r + dr, c + dc, dr, dc, occ)
  {
  }

  lemma AheadStep(a: Square, b: Square, dr: int, dc: int, k: int, occ: Bitboard)
    ensures Ahead(a, b, dr, dc, k, occ) <==>
            && Heading(a, b, dr, dc) && k <= Distance(a, b)
            && (k < Distance(a, b) ==> CellAt(a, b, k) !in occ && Ahead(a, b, dr, dc, k + 1, occ))
  {
    hide Heading, Distance, CellAt;
  }

  /** The k-th cell in a direction, and the squares that lie that way. */
  lemma RayCell(a: Square, b: Square, dr: int, dc: int, k: nat)
    requires IsDirection(dr, dc) && 1 <= k
    ensures var r, c := Along(Row(a), dr, k), Along(Col(a), dc, k);
            && (Heading(a, b, dr, dc) && k <= Distance(a, b) ==> OnBoard(r, c) && CellAt(a, b, k) == Sq(r, c))
            && (OnBoard(r, c) ==> k < 8 && (b == Sq(r, c) <==> Heading(a, b, dr, dc) && Distance(a, b) == k))
            && r + dr == Along(Row(a), dr, k + 1) && c + dc == Along(Col(a), dc, k + 1)
  {
    var r, c := Along(Row(a), dr, k), Along(Col(a), dc, k);
    if Heading(a, b, dr, dc) && k <= Distance(a, b) {
      HeadingCell(a, b, dr, dc, k);
    }
    if OnBoard(r, c) {
      CellHeading(a, dr, dc, k);
    }
  }

  lemma {:induction false} RayMeaning(a: Square, dr: int, dc: int, k: nat, occ: Bitboard, b: Square)
    requires IsDirection(dr, dc) && 1 <= k
    ensures b in Ray(Along(Row(a), dr, k), Along(Col(a), dc, k), dr, dc, occ) <==> Ahead(a, b, dr, dc, k, occ)
    decreases 8 - k
  {
    hide Ray, Ahead, Heading, Distance, CellAt, Sq, Row, Col, Along;
    var r, c := Along(Row(a), dr, k), Along(Col(a), dc, k);
    RayStep(r, c, dr, dc, occ);
    AheadStep(a, b, dr, dc, k, occ);
    RayCell(a, b, dr, dc, k);
    if OnBoard(r, c) {
      RayMeaning(a, dr, dc, k + 1, occ, b);
      AheadStep(a, b, dr, dc, k + 1, occ);
    }
  }

  // ---- Control of squares under the rules of each mod ----------------------

  /** The man on `from` controls `to`. */
  predicate Controls(p: Pos, from: Square, to: Square) {
    match p.at[from]
    case Empty => false
    case Man(c, k) =>
      match k
      case King => KingStep(from, to)
      case Pawn => if p.mod == Mercenary then KingStep(from, to) else PawnStep(c, from, to)
      case Knight => !Locked(p) && KnightStep(from, to)
      case Bishop => !Locked(p) && BishopReach(from, to, All(p.at))
      case Rook => !Locked(p) && RookReach(from, to, All(p.at))
      case Queen =>
        && !Locked(p)
        && (p.mod == SaveQueen ==> OwnHalf(from, c))
        && (BishopReach(from, to, All(p.at)) || RookReach(from, to, All(p.at)))
  }

  predicate ControlledBy(p: Pos, c: Color, from: Square, to: Square) {
    p.at[from].Man? && p.at[from].color == c && Controls(p, from, to)
  }

  /** Some man of side c controls the square. */
  predicate Attacked(p: Pos, to: Square, c: Color) {
    exists from: Square :: ControlledBy(p, c, from, to)
  }

  /** The side's (first) king is attacked, in a mod and phase where that matters. */
  predicate InCheck(p: Pos, c: Color) {
    var kings := Of(p.at, c, King);
    && kings != {}
    && (p.mod == Heir ==> HeirCheckApplies(p, c))
    && !InTruce(p)
    && Attacked(p, Lsb(kings), Opposite(c))
  }
}
