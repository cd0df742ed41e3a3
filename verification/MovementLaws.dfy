/** What may be taken, by whom, and how pawns go, told man by man. */
module MovementLaws {
  import opened Types
  import opened Position
  import opened Attacks
  import opened Rules
  import opened MoveLists

  /** Save the Queen: a queen out of her own half whose prison is taken may not be taken by others than queens. */
  predicate Sheltered(p: Pos, s: Square) {
    var them := Opposite(p.side);
    p.mod == SaveQueen && p.at[s] == Man(them, Queen) && !OwnHalf(s, them) && p.at[Prison(them)] != Empty
  }

  /** A man that may be taken: an enemy, but no king outside Heir, no sheltered queen and nobody in a truce; or in
      Friendly Fire an own man that has moved, but no king. */
  predicate FairGame(p: Pos, s: Square) {
    && p.at[s].Man?
    && if p.at[s].color == p.side then p.mod == FriendlyFire && s in p.ffMoved && p.at[s].kind != King
       else !(p.mod == Truce && p.truceActive) && (p.at[s].kind == King ==> p.mod == Heir) && !Sheltered(p, s)
  }

  /** Whatever is taken other than in passing was fair game, of the kind named, and a king takes no king. */
  lemma OnlyFairGame(p: Pos, m: Move)
    requires Pseudo(p, m) && m.captured.Some? && !m.ep
    ensures p.at[m.to].Man? && m.captured == Some(p.at[m.to].kind)
    ensures !(p.mod == SaveQueen && m.piece == Queen) ==> FairGame(p, m.to)
    ensures m.piece == King ==> p.at[m.to].kind != King
  {
    hide MayCastle, WaySafe, CheckMatters, WayClear, AwayFromHeir, Reaches, MayBecome, HeldQueen, KingStep, PawnStep;
  }

  /** Outside Mercenary a pawn takes exactly the fair game on its two forward diagonals, promoting as it must. */
  lemma PawnTakesExactly(p: Pos, m: Move)
    requires p.mod != Mercenary && p.at[m.from] == Man(p.side, Pawn) && MayMove(p, m.from)
    requires m.piece == Pawn && !m.castle && !m.ep && m.captured.Some?
    ensures m in PseudoMoves(p) <==>
            && PawnStep(p.side, m.from, m.to) && FairGame(p, m.to) && m.captured == Some(p.at[m.to].kind)
            && Promotes(p, m)
  {
    hide PseudoMoves, Promotes, PawnStep, CastleMove;
    InPseudoMoves(p, m);
    NoCastlingPawn(p, m);
  }

  lemma NoCastlingPawn(p: Pos, m: Move)
    requires !m.castle
    ensures !CastleMove(p, m)
  {
  }

  /** Every other man that reaches fair game takes it; kings spare kings, and in Heir keep their distance. */
  lemma PieceTakesExactly(p: Pos, m: Move)
    requires p.at[m.from] == Man(p.side, m.piece) && m.piece != Pawn && MayMove(p, m.from)
    requires !(p.mod == SaveQueen && m.piece == Queen) && (p.mod == KingsBattle && !p.kbUnlocked ==> m.piece == King)
    requires !m.castle && !m.ep && m.promo.None? && m.captured.Some?
    ensures m in PseudoMoves(p) <==>
            && Reaches(p.at, m.piece, m.from, m.to) && FairGame(p, m.to) && m.captured == Some(p.at[m.to].kind)
            && (m.piece == King ==> p.at[m.to].kind != King && AwayFromHeir(p, m.to))
  {
    hide PseudoMoves, Reaches, AwayFromHeir, CastleMove;
    InPseudoMoves(p, m);
    NoCastlingPawn(p, m);
  }

  /** In passing a pawn takes what stands beside it, unless an enemy it may not take stands on the square. */
  lemma PassingTakesExactly(p: Pos, m: Move)
    requires p.mod != Mercenary && p.at[m.from] == Man(p.side, Pawn) && MayMove(p, m.from) && m.piece == Pawn
    requires m.ep && !m.castle
    ensures m in PseudoMoves(p) <==>
            var beside := p.at[Sq(Row(m.from), Col(m.to))];
            && PawnStep(p.side, m.from, m.to) && m.to == p.ep && m.promo.None? && !(p.mod == Truce && p.truceActive)
            && beside.Man? && beside.color != p.side && m.captured == Some(beside.kind)
            && (p.at[m.to].Man? && p.at[m.to].color != p.side ==> FairGame(p, m.to))
  {
    hide PseudoMoves, PawnStep, CastleMove, Promotes;
    InPseudoMoves(p, m);
    NoCastlingPawn(p, m);
  }

  /** Every square from the pawn's up to its target is empty, the target included. */
  predicate RunsFree(at: Placement, c: Color, from: Square, steps: int) {
    forall k :: 1 <= k <= steps ==> 0 <= from + 8 * k * Dir(c) < 64 && at[from + 8 * k * Dir(c)] == Empty
  }

  /** Outside Mercenary a pawn that takes nothing goes straight ahead, one square, or two from its second rank,
      over empty squares only; it promotes as it must, and not after two squares. */
  lemma PawnPushesExactly(p: Pos, m: Move)
    requires p.mod != Mercenary && p.at[m.from] == Man(p.side, Pawn) && MayMove(p, m.from)
    requires m.piece == Pawn && !m.castle && !m.ep && m.captured.None?
    ensures m in PseudoMoves(p) <==>
            || (m.to == m.from + 8 * Dir(p.side) && RunsFree(p.at, p.side, m.from, 1) && Promotes(p, m))
            || (m.to == m.from + 16 * Dir(p.side) && RunsFree(p.at, p.side, m.from, 2) && m.promo.None?
                && Row(m.from) == if p.side == White then 1 else 6)
  {
    hide PseudoMoves, Promotes, CastleMove, RunsFree;
    InPseudoMoves(p, m);
    NoCastlingPawn(p, m);
    OneFree(p.at, p.side, m.from);
  }

  lemma OneFree(at: Placement, c: Color, from: Square)
    ensures var one := from + 8 * Dir(c); RunsFree(at, c, from, 1) <==> 0 <= one < 64 && at[one] == Empty
    ensures var one, two := from + 8 * Dir(c), from + 16 * Dir(c);
            RunsFree(at, c, from, 2) <==> 0 <= one < 64 && at[one] == Empty && 0 <= two < 64 && at[two] == Empty
  {
    var one, two := from + 8 * Dir(c), from + 16 * Dir(c);
    assert from + 8 * 1 * Dir(c) == one && from + 8 * 2 * Dir(c) == two;
    if 0 <= one < 64 && at[one] == Empty {
      forall k | 1 <= k <= 1 ensures 0 <= from + 8 * k * Dir(c) < 64 && at[from + 8 * k * Dir(c)] == Empty {
        assert k == 1;
      }
      if 0 <= two < 64 && at[two] == Empty {
        forall k | 1 <= k <= 2 ensures 0 <= from + 8 * k * Dir(c) < 64 && at[from + 8 * k * Dir(c)] == Empty {
          assert k == 1 || k == 2;
        }
      }
    }
  }

  /** Outside Mercenary a pawn promotes exactly on the last rank; in Mercenary it never does. */
  lemma LastRankPromotes(p: Pos, m: Move)
    requires Pseudo(p, m)
    ensures p.mod != Mercenary && m.piece == Pawn && !m.ep ==>
            (m.promo.Some? <==> Row(m.to) == if p.side == White then 7 else 0)
    ensures m.promo.Some? ==> m.piece == Pawn && p.mod != Mercenary && m.promo != Some(Pawn)
    ensures m.promo == Some(Queen) ==> p.mod != SaveQueen && p.mod != Succession
    ensures m.promo == Some(King) ==> p.mod == Heir || p.mod == Succession
  {
    hide MayCastle, WaySafe, CheckMatters, WayClear, AwayFromHeir, Reaches, MayTake, HeldQueen, Attacked;
  }

  /** The halves of Save the Queen: four ranks from each side's back rank. */
  lemma HalvesExactly(s: Square, c: Color)
    ensures OwnHalf(s, c) <==> Abs(Row(s) - if c == White then 0 else 7) < 4
    ensures OwnHalf(s, White) != OwnHalf(s, Black) && OwnHalf(Prison(White), Black) && OwnHalf(Prison(Black), White)
  {
  }
}
