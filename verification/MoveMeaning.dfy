/** What a move does to the board, square by square. */
module MoveMeaning {
  import opened Types
  import opened Position
  import opened Making
  import opened Rules
  import opened Reachable
  import opened Totals

  /** Where the pawn taken in passing stands: beside the mover, on the file it moves to. */
  function Passed(m: Move): Square { Sq(Row(m.from), Col(m.to)) }

  /** Where a castling rook lands: on the square its king passes. */
  function RookLands(w: Wing): Square { KingHome(w.color) + if w.kingside then 1 else -1 }

  function WingOf(p: Pos, m: Move): Wing { Wing(p.side, m.to > m.from) }

  /** A queen taken outside her own half while her prison is free. */
  predicate TakesPrisoner(p: Pos, m: Move) {
    var them := Opposite(p.side);
    && p.mod == SaveQueen && m.captured == Some(Queen) && !m.ep
    && !OwnHalf(m.to, them) && p.at[Prison(them)] == Empty
  }

  /** The squares a move is about. */
  predicate About(p: Pos, m: Move, s: Square) {
    || s == m.from || s == m.to
    || (m.ep && s == Passed(m))
    || (m.castle && (s == RookHome(WingOf(p, m)) || s == RookLands(WingOf(p, m))))
    || (TakesPrisoner(p, m) && s == Prison(Opposite(p.side)))
  }

  /** The man the move names stands on its target, its origin is empty, and what it takes, carries along or
      sends back is where it should be. */
  lemma LandsAsNamed(p: Pos, m: Move)
    requires Fits(p, m)
    ensures var q := Next(p, m).at;
            && q[m.to] == Man(p.side, if m.promo.Some? then m.promo.value else m.piece)
            && q[m.from] == Empty
            && (m.ep ==> q[Passed(m)] == Empty)
            && (m.castle ==> q[RookHome(WingOf(p, m))] == Empty && q[RookLands(WingOf(p, m))] == Man(p.side, Rook))
            && (TakesPrisoner(p, m) ==> q[Prison(Opposite(p.side))] == Man(Opposite(p.side), Queen))
  {
  }

  /** Every other square keeps what it had, be it a man or nothing. */
  lemma ElsewhereNothingChanges(p: Pos, m: Move, s: Square)
    requires Fits(p, m) && !About(p, m, s)
    ensures Next(p, m).at[s] == p.at[s]
  {
  }

  /** A promotion turns a pawn into the kind it names. */
  lemma PromotionCounts(p: Pos, m: Move)
    requires Fits(p, m) && m.promo.Some? && m.promo != Some(Pawn)
    requires p.at[m.to].Man? ==> p.at[m.to].color != p.side
    ensures |Of(Next(p, m).at, p.side, m.promo.value)| == |Of(p.at, p.side, m.promo.value)| + 1
    ensures |Of(Next(p, m).at, p.side, Pawn)| == |Of(p.at, p.side, Pawn)| - 1
  {
    var k := m.promo.value;
    CountOf(p.at, p.side, k);
    CountOf(Next(p, m).at, p.side, k);
    CountOf(p.at, p.side, Pawn);
    CountOf(Next(p, m).at, p.side, Pawn);
    MoveTotal(p, m, Counts(p.side, k));
    MoveTotal(p, m, Counts(p.side, Pawn));
  }

  /** Without a capture or promotion every kind keeps its number. */
  lemma QuietCounts(p: Pos, m: Move, c: Color, k: Kind)
    requires Fits(p, m) && !IsCapture(m) && m.promo.None?
    ensures |Of(Next(p, m).at, c, k)| == |Of(p.at, c, k)|
  {
    CountOf(p.at, c, k);
    CountOf(Next(p, m).at, c, k);
    MoveTotal(p, m, Counts(c, k));
  }
}
