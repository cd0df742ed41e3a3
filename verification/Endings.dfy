/** Two positions without a legal move: one mated, one stalemated. */
module Endings {
  import opened Types
  import opened Bitboards
  import opened Position
  import opened Attacks
  import opened Making
  import opened Rules
  import opened Legality
  import opened Reachable
  import opened KingSafety
  import opened GameValue
  import opened Verdicts

  /** Black Kg8 behind pawns f7, g7 and h7, White Re8 and Kg1. */
  function BackRank(): Pos {
    Pos(seq(64, s => if s == 62 then Man(Black, King) else if s == 53 || s == 54 || s == 55 then Man(Black, Pawn)
                     else if s == 60 then Man(White, Rook) else if s == 6 then Man(White, King) else Empty),
        Black, Rights(false, false, false, false), NO_SQUARE, 0, 1, Classic,
        false, false, false, {}, {}, false, 0)
  }

  /** Black Ka8, White Qb6 and Kc6. */
  function Cornered(): Pos {
    Pos(seq(64, s => if s == 56 then Man(Black, King) else if s == 41 then Man(White, Queen)
                     else if s == 42 then Man(White, King) else Empty),
        Black, Rights(false, false, false, false), NO_SQUARE, 0, 1, Classic,
        false, false, false, {}, {}, false, 0)
  }

  /** No move of the rules is safe, so none is legal. */
  lemma NothingLegal(p: Pos)
    requires forall m :: Pseudo(p, m) ==> !Safe(p, m)
    ensures NoMoves(p)
  {
    hide LegalMoves, Pseudo, Safe;
    if LegalMoves(p) != [] {
      var m := LegalMoves(p)[0];
      LegalExactly(p, m);
    }
  }

  // ---- Mate -------------------------------------------------------------------------------------

  lemma RookOnRank(q: Pos, king: Square)
    requires q.mod == Classic && (king == 61 || king == 62 || king == 63)
    requires q.at[60] == Man(White, Rook) && Of(q.at, Black, King) == {king}
    requires forall s: Square :: 60 < s < king ==> q.at[s] == Empty
    ensures CheckCounts(q, Black) && Exposed(q, Black)
  {
    assert IsLsb(Of(q.at, Black, King), king);
    assert Orthogonal(60, king) && Distance(60, king) == king - 60;
    forall k | 0 < k < Distance(60, king) ensures CellAt(60, king, k) !in All(q.at) {
      assert CellAt(60, king, k) == 60 + k;
    }
    assert ControlledBy(q, White, 60, king);
    assert Menaced(q, Opposite(Black), king);
  }

  /** The king can only step along its rank, and the pawns only forward. */
  lemma BackRankMoves(p: Pos, m: Move)
    requires p == BackRank() && Pseudo(p, m)
    ensures Fits(p, m) && !m.castle && !m.ep && !IsCapture(m)
    ensures (m.from == 62 && m.piece == King && (m.to == 61 || m.to == 63))
         || (53 <= m.from <= 55 && m.piece == Pawn && m.to < 48 && m.promo.None?)
  {
    hide MayCastle, WaySafe, CheckMatters, WayClear, AwayFromHeir;
    PseudoFits(p, m);
  }

  lemma BackRankUnsafe(p: Pos, m: Move)
    requires p == BackRank() && Pseudo(p, m)
    ensures !Safe(p, m)
  {
    BackRankMoves(p, m);
    var q := Next(p, m);
    assert q.at == p.at[m.from := Empty][m.to := Man(Black, m.piece)];
    assert q.mod == Classic;
    var king: Square := if m.from == 62 then m.to else 62;
    assert Of(q.at, Black, King) == {king};
    hide Pseudo, Next, Fits;
    RookOnRank(q, king);
  }

  /** The back rank mate is worth a mate against the side to move, at any depth. */
  lemma BackRankMate(keys: Keys, j: Judge, st: State, depth: int, ply: nat)
    requires Judged(j) && ply < MAX_PLY && st.pos == BackRank() && NewHash(st)
    ensures Value(keys, j, st, depth, ply) == -(MATE - ply)
  {
    var p := BackRank();
    assert Of(p.at, Black, King) == {62};
    RookOnRank(p, 62);
    forall m | Pseudo(p, m) ensures !Safe(p, m) { BackRankUnsafe(p, m); }
    assert Undecided(st);
    hide Pseudo, Safe, Value, NoMoves, Exposed, CheckCounts, NewHash, Undecided, BackRank;
    NothingLegal(p);
    MatedValue(keys, j, st, depth, ply);
  }

  // ---- Stalemate ----------------------------------------------------------------------------------

  lemma QueenControls(q: Pos, king: Square)
    requires q.mod == Classic && (king == 48 || king == 49 || king == 57)
    requires q.at == Cornered().at[56 := Empty][king := Man(Black, King)]
    ensures CheckCounts(q, Black) && Exposed(q, Black)
  {
    assert Of(q.at, Black, King) == {king};
    assert IsLsb(Of(q.at, Black, King), king);
    assert Distance(41, king) == if king == 57 then 2 else 1;
    assert king == 57 ==> CellAt(41, king, 1) == 49;
    assert ControlledBy(q, White, 41, king);
    assert Menaced(q, Opposite(Black), king);
  }

  lemma CorneredMoves(p: Pos, m: Move)
    requires p == Cornered() && Pseudo(p, m)
    ensures Fits(p, m) && !m.castle && !m.ep && !IsCapture(m) && m.from == 56 && m.piece == King && m.promo.None?
    ensures m.to == 48 || m.to == 49 || m.to == 57
  {
    hide MayCastle, WaySafe, CheckMatters, WayClear, AwayFromHeir;
    PseudoFits(p, m);
  }

  lemma CorneredUnsafe(p: Pos, m: Move)
    requires p == Cornered() && Pseudo(p, m)
    ensures !Safe(p, m)
  {
    CorneredMoves(p, m);
    var q := Next(p, m);
    assert q.at == p.at[56 := Empty][m.to := Man(Black, King)] && q.mod == Classic;
    hide Pseudo, Next, Fits;
    QueenControls(q, m.to);
  }

  /** Nobody controls the corner. */
  lemma CornerUnseen(p: Pos)
    requires p == Cornered()
    ensures !Exposed(p, Black)
  {
    assert Of(p.at, Black, King) == {56};
    forall s: Square ensures !ControlledBy(p, White, s, 56) {
      assert !KingStep(42, 56) && !Diagonal(41, 56) && !Orthogonal(41, 56);
    }
  }

  /** The cornered king without a move is worth a draw once a ply is left to see it. */
  lemma CorneredDraw(keys: Keys, j: Judge, st: State, depth: int, ply: nat)
    requires Judged(j) && ply < MAX_PLY && depth > 0 && st.pos == Cornered() && NewHash(st)
    ensures Value(keys, j, st, depth, ply) == 0
  {
    var p := Cornered();
    CornerUnseen(p);
    forall m | Pseudo(p, m) ensures !Safe(p, m) { CorneredUnsafe(p, m); }
    assert Undecided(st);
    hide Pseudo, Safe, Value, NoMoves, Exposed, CheckCounts, NewHash, Undecided;
    NothingLegal(p);
    StalemateValue(keys, j, st, depth, ply);
  }
}
