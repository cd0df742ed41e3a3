/** When castling is allowed, told from the geometry of the board. */
module CastlingLaws {
  import opened Types
  import opened Bitboards
  import opened Position
  import opened Attacks
  import opened Rules
  import opened MoveLists
  import opened KingSafety

  /** The king goes two squares towards a rook that stands three squares away, or four on the queen's side. */
  function KingGoes(kingside: bool): int { if kingside then 2 else -2 }

  function RookAway(kingside: bool): int { if kingside then 3 else -4 }

  function Home(c: Color): Square { if c == White then 4 else 60 }

  function Right(r: Rights, c: Color, kingside: bool): bool {
    if c == White then (if kingside then r.wk else r.wq) else (if kingside then r.bk else r.bq)
  }

  /** No man of the other side controls a square the king crosses or lands on. */
  ghost predicate CrossesSafely(p: Pos, kingside: bool) {
    var them, home := Opposite(p.side), Home(p.side);
    !Menaced(p, them, home + if kingside then 1 else -1) && !Menaced(p, them, home + if kingside then 2 else -2)
  }

  /** Castling on one wing: the right, nothing between king and rook, nowhere attacked where check counts, phase 2
      in King's Battle, and in a truce a (first) king that has not moved. */
  ghost predicate CastlesBy(p: Pos, m: Move, kingside: bool) {
    var home := Home(p.side);
    && m == Move(home, home + KingGoes(kingside), King, None, true, false, None)
    && Right(p.castling, p.side, kingside)
    && RookReach(home, home + RookAway(kingside), All(p.at))
    && (CheckCounts(p, p.side) ==> !Exposed(p, p.side) && CrossesSafely(p, kingside))
    && (p.mod == KingsBattle ==> p.kbUnlocked)
    && (TruceOn(p) ==> forall king: Square :: IsLsb(Of(p.at, p.side, King), king) ==> king !in p.frozen)
  }

  /** A castling move is allowed, and listed, exactly then. */
  lemma CastlingExactly(p: Pos, m: Move)
    requires m.castle
    ensures Pseudo(p, m) <==> CastlesBy(p, m, true) || CastlesBy(p, m, false)
    ensures m in PseudoMoves(p) <==> CastlesBy(p, m, true) || CastlesBy(p, m, false)
  {
    hide PseudoMoves;
    InPseudoMoves(p, m);
    WingExactly(p, m, true);
    WingExactly(p, m, false);
    hide CastlesBy, MayCastle, CastlesOn;
  }

  lemma WingExactly(p: Pos, m: Move, kingside: bool)
    ensures MayCastle(p) && CastlesOn(p, m, Wing(p.side, kingside)) <==> CastlesBy(p, m, kingside)
  {
    WayIsClear(p.at, p.side, kingside);
    WayIsSafe(p, kingside);
    CheckIsExposure(p, p.side);
    MattersIsCounts(p);
    FrozenIsFirst(p);
    hide WayClear, WaySafe, RookReach, InCheck, CheckMatters, KingFrozen, CheckCounts, Exposed, CrossesSafely;
  }

  lemma WayIsClear(at: Placement, c: Color, kingside: bool)
    ensures WayClear(at, Wing(c, kingside)) <==> RookReach(Home(c), Home(c) + RookAway(kingside), All(at))
  {
    var a, b := Home(c), Home(c) + RookAway(kingside);
    assert Orthogonal(a, b) && Distance(a, b) == if kingside then 3 else 4;
    assert CellAt(a, b, 1) == if kingside then a + 1 else a - 1;
    assert CellAt(a, b, 2) == if kingside then a + 2 else a - 2;
    assert CellAt(a, b, 3) == if kingside then a + 3 else a - 3;
  }

  lemma WayIsSafe(p: Pos, kingside: bool)
    ensures WaySafe(p, Wing(p.side, kingside)) <==> CrossesSafely(p, kingside)
  {
    hide ControlledBy;
  }

  lemma MattersIsCounts(p: Pos)
    ensures CheckMatters(p) <==> CheckCounts(p, p.side)
  {
    NoPawnAtAll(p.at, p.side);
  }

  lemma FrozenIsFirst(p: Pos)
    ensures KingFrozen(p) <==>
            TruceOn(p) && !(forall king: Square :: IsLsb(Of(p.at, p.side, King), king) ==> king !in p.frozen)
  {
    var kings := Of(p.at, p.side, King);
    if kings != {} { FirstKing(kings, Lsb(kings)); }
  }

  // ---- A man in the way ---------------------------------------------------------------------

  /** White Ke1, Ra1 and Nb1 with the right to castle there, Black Ke8. */
  function KnightInTheWay(): Pos {
    Pos(seq(64, s => if s == 4 then Man(White, King) else if s == 0 then Man(White, Rook)
                     else if s == 1 then Man(White, Knight) else if s == 60 then Man(Black, King) else Empty),
        White, Rights(false, true, false, false), NO_SQUARE, 0, 1, Classic,
        false, false, false, {}, {}, false, 0)
  }

  /** A man next to the rook is enough to rule castling out, although no square the king uses is taken. */
  lemma KnightBlocks(m: Move)
    requires m.castle
    ensures !Pseudo(KnightInTheWay(), m)
  {
    var p := KnightInTheWay();
    assert CellAt(4, 0, 3) == 1 && 1 in All(p.at);
    assert !RookReach(4, 0, All(p.at));
    hide Pseudo;
    CastlingExactly(p, m);
  }
}
