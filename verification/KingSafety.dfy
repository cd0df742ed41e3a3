/** What legality means: whom a generated move leaves attackable, told from the men themselves. */
module KingSafety {
  import opened Types
  import opened Bitboards
  import opened Position
  import opened Attacks
  import opened Making
  import opened Rules
  import opened MoveLists
  import opened Legality
  import opened Runs

  /** A man of the other side controls the king of c (the lowest, should there be several). */
  ghost predicate Exposed(q: Pos, c: Color) {
    exists king: Square :: IsLsb(Of(q.at, c, King), king) && Menaced(q, Opposite(c), king)
  }

  /** Some man of c controls the square. */
  ghost predicate Menaced(q: Pos, c: Color, sq: Square) { exists s: Square :: ControlledBy(q, c, s, sq) }

  predicate NoPawn(at: Placement, c: Color) { forall s: Square :: at[s] != Man(c, Pawn) }

  lemma NoPawnAtAll(at: Placement, c: Color)
    ensures NoPawn(at, c) <==> Of(at, c, Pawn) == {}
  {
    if Of(at, c, Pawn) != {} {
      var s :| s in Of(at, c, Pawn);
      assert at[s] == Man(c, Pawn);
    } else {
      forall s: Square ensures at[s] != Man(c, Pawn) { assert s !in Of(at, c, Pawn); }
    }
  }

  lemma ExposedAt(q: Pos, c: Color)
    ensures var kings := Of(q.at, c, King);
            Exposed(q, c) <==> kings != {} && Attacked(q, Lsb(kings), Opposite(c))
  {
    hide ControlledBy, Lsb;
    var kings := Of(q.at, c, King);
    if kings != {} {
      var king := Lsb(kings);
      FirstKing(kings, king);
      assert Attacked(q, king, Opposite(c)) <==> Menaced(q, Opposite(c), king);
    }
  }

  predicate TruceOn(q: Pos) { q.mod == Truce && q.truceActive }

  /** Check counts for c: not in a truce, and in Heir only once c has crowned an heir or has no pawn. */
  predicate CheckCounts(q: Pos, c: Color) {
    && !TruceOn(q)
    && (q.mod == Heir ==> (if c == White then q.heirWhite else q.heirBlack) || NoPawn(q.at, c))
  }

  lemma CheckIsExposure(q: Pos, c: Color)
    ensures InCheck(q, c) <==> CheckCounts(q, c) && Exposed(q, c)
  {
    hide Attacked, Lsb, Exposed, NoPawn;
    ExposedAt(q, c);
    NoPawnAtAll(q.at, c);
  }

  /** There is but one lowest square. */
  lemma FirstKing(kings: Bitboard, king: Square)
    requires IsLsb(kings, king)
    ensures forall k :: IsLsb(kings, k) ==> k == king
  {
  }

  lemma TruceCheckIsExposure(q: Pos, mover: Color)
    ensures GivesTruceCheck(q, mover) <==> TruceOn(q) && Exposed(q, Opposite(mover))
  {
    hide Attacked, Lsb, Exposed;
    ExposedAt(q, Opposite(mover));
    assert Opposite(Opposite(mover)) == mover;
  }

  /** The mover may not leave its king attackable where check counts, nor in a truce attack the other king. */
  ghost predicate Safe(p: Pos, m: Move) {
    var q := Next(p, m);
    && (CheckCounts(q, p.side) ==> !Exposed(q, p.side))
    && (TruceOn(q) ==> !Exposed(q, Opposite(p.side)))
  }

  /** Generated moves are the moves of the rules that leave nobody attackable who should not be. With at most
      256 pseudo-moves, those are all of them. */
  lemma LegalExactly(p: Pos, m: Move)
    ensures m in LegalMoves(p) ==> Pseudo(p, m) && Safe(p, m)
    ensures |PseudoMoves(p)| <= MAX_MOVES ==> (m in LegalMoves(p) <==> Pseudo(p, m) && Safe(p, m))
  {
    hide Pseudo, Next, LegalMoves, PseudoMoves, InCheck, GivesTruceCheck, CheckCounts, Exposed, TruceOn;
    var q := Next(p, m);
    LegalMovesAreLegal(p, m);
    CheckIsExposure(q, p.side);
    TruceCheckIsExposure(q, p.side);
    SafeMeansLegal(p, m);
  }

  lemma SafeMeansLegal(p: Pos, m: Move)
    ensures Legal(p, m) <==> Safe(p, m)
  {
    hide Pseudo, Next, InCheck, GivesTruceCheck, CheckCounts, Exposed, TruceOn;
    CheckIsExposure(Next(p, m), p.side);
    TruceCheckIsExposure(Next(p, m), p.side);
  }

  // ---- Over whole games ----------------------------------------------------------------

  ghost predicate LegalRun(p: Pos, ms: seq<Move>)
    decreases |ms|
  {
    ms != [] ==> ms[0] in LegalMoves(p) && LegalRun(Next(p, ms[0]), ms[1..])
  }

  /** Whoever made the last move of a legal game. */
  function LastMover(p: Pos, ms: seq<Move>): Color
    requires ms != []
    decreases |ms|
  {
    if |ms| == 1 then p.side else LastMover(Next(p, ms[0]), ms[1..])
  }

  /** In every position of a legal game the side that has just moved is not attackable where check counts,
      and in a truce neither is the other side. */
  lemma {:induction false} NeverLeftExposed(p: Pos, ms: seq<Move>)
    requires ms != [] && LegalRun(p, ms)
    ensures var q, c := After(p, ms), LastMover(p, ms);
            (CheckCounts(q, c) ==> !Exposed(q, c)) && (TruceOn(q) ==> !Exposed(q, Opposite(c)))
    decreases |ms|
  {
    hide LegalMoves, Next, Pseudo, CheckCounts, Exposed, TruceOn;
    LegalExactly(p, ms[0]);
    if |ms| == 1 {
      assert After(p, ms) == Next(p, ms[0]);
    } else {
      NeverLeftExposed(Next(p, ms[0]), ms[1..]);
    }
  }

  // ---- A pinned man ----------------------------------------------------------------------

  /** White Ke1 and Ne2, Black Re8 and Kh8. */
  function PinnedKnight(): Pos {
    Pos(seq(64, s => if s == 4 then Man(White, King) else if s == 12 then Man(White, Knight)
                     else if s == 60 then Man(Black, Rook) else if s == 63 then Man(Black, King) else Empty),
        White, Rights(false, false, false, false), NO_SQUARE, 0, 1, Classic,
        false, false, false, {}, {}, false, 0)
  }

  /** The knight may go to c3 by the rules of movement, but is not let go. */
  lemma PinnedKnightStays()
    ensures var p, m := PinnedKnight(), Simple(12, 18, Knight); Pseudo(p, m) && m !in LegalMoves(p)
  {
    var p, m := PinnedKnight(), Simple(12, 18, Knight);
    assert PieceMove(p, m);
    var q := Next(p, m);
    assert q.at == p.at[12 := Empty][18 := Man(White, Knight)];
    KnightGone(q);
    hide Pseudo, LegalMoves, Next, Exposed, CheckCounts, PinnedKnight;
    LegalExactly(p, m);
  }

  lemma KnightGone(q: Pos)
    requires q.mod == Classic && q.at == PinnedKnight().at[12 := Empty][18 := Man(White, Knight)]
    ensures CheckCounts(q, White) && Exposed(q, White)
  {
    assert IsLsb(Of(q.at, White, King), 4);
    forall k | 0 < k < Distance(60, 4) ensures CellAt(60, 4, k) !in All(q.at) {
      assert CellAt(60, 4, k) == 60 - 8 * k;
    }
    assert RookReach(60, 4, All(q.at));
    assert ControlledBy(q, Black, 60, 4);
    assert Menaced(q, Opposite(White), 4);
  }
}
