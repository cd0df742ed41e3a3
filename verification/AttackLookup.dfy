/** Is a square attacked? The engine looks outward from the square; the rules look from each man. */
module AttackLookup {
  import opened Types
  import opened Bitboards
  import opened Position
  import opened Attacks
  import opened AttackTables
  import opened Boards

  /** Queens that can capture: in Save the Queen only those in their own half. */
  function EffectiveQueens(p: Pos, c: Color): Bitboard {
    if p.mod == SaveQueen then Of(p.at, c, Queen) * Half(c) else Of(p.at, c, Queen)
  }

  predicate Meets(a: Bitboard, b: Bitboard) { a * b != {} }

  predicate OfficerHit(p: Pos, sq: Square, c: Color) {
    || Meets(KnightTargets(sq), Of(p.at, c, Knight))
    || Meets(BishopTargets(sq, All(p.at)), Of(p.at, c, Bishop) + EffectiveQueens(p, c))
    || Meets(RookTargets(sq, All(p.at)), Of(p.at, c, Rook) + EffectiveQueens(p, c))
  }

  /** The reverse lookup: does a ray or step leaving the square hit a man of that kind? */
  predicate Hit(p: Pos, sq: Square, c: Color) {
    || Meets(KingTargets(sq), Of(p.at, c, King))
    || (if p.mod == Mercenary then Meets(KingTargets(sq), Of(p.at, c, Pawn))
        else Meets(PawnTargets(Opposite(c), sq), Of(p.at, c, Pawn)))
    || (!Locked(p) && OfficerHit(p, sq, c))
  }

  lemma StepsSymmetric(a: Square, b: Square, c: Color)
    ensures KingStep(a, b) == KingStep(b, a) && KnightStep(a, b) == KnightStep(b, a)
    ensures PawnStep(c, a, b) == PawnStep(Opposite(c), b, a)
  {
  }

  /** A man that controls the square is hit by the lookup. */
  lemma ControlIsHit(p: Pos, sq: Square, c: Color, from: Square)
    requires ControlledBy(p, c, from, sq)
    ensures Hit(p, sq, c)
  {
    hide KingStep, KnightStep, PawnStep, BishopReach, RookReach, OwnHalf;
    StepsSymmetric(from, sq, c);
    SlideSymmetric(from, sq, All(p.at));
    match p.at[from].kind
    case King => assert from in KingTargets(sq) * Of(p.at, c, King);
    case Pawn =>
      if p.mod == Mercenary {
        assert from in KingTargets(sq) * Of(p.at, c, Pawn);
      } else {
        assert from in PawnTargets(Opposite(c), sq) * Of(p.at, c, Pawn);
      }
    case Knight => assert from in KnightTargets(sq) * Of(p.at, c, Knight);
    case Bishop => assert from in BishopTargets(sq, All(p.at)) * (Of(p.at, c, Bishop) + EffectiveQueens(p, c));
    case Rook => assert from in RookTargets(sq, All(p.at)) * (Of(p.at, c, Rook) + EffectiveQueens(p, c));
    case Queen =>
      assert from in EffectiveQueens(p, c);
      if BishopReach(from, sq, All(p.at)) {
        assert from in BishopTargets(sq, All(p.at)) * (Of(p.at, c, Bishop) + EffectiveQueens(p, c));
      } else {
        assert from in RookTargets(sq, All(p.at)) * (Of(p.at, c, Rook) + EffectiveQueens(p, c));
      }
  }

  /** A witness of a meeting, if there is one. */
  function Witness(a: Bitboard, b: Bitboard): (s: Square)
    ensures Meets(a, b) ==> s in a && s in b
  {
    if Meets(a, b) then Lsb(a * b) else 0
  }

  lemma HitIsControl(p: Pos, sq: Square, c: Color)
    requires Hit(p, sq, c)
    ensures Attacked(p, sq, c)
  {
    hide KingStep, KnightStep, PawnStep, BishopReach, RookReach, OwnHalf, Witness;
    var all := All(p.at);
    var from: Square;
    if Meets(KingTargets(sq), Of(p.at, c, King)) {
      from := Witness(KingTargets(sq), Of(p.at, c, King));
    } else if p.mod == Mercenary && Meets(KingTargets(sq), Of(p.at, c, Pawn)) {
      from := Witness(KingTargets(sq), Of(p.at, c, Pawn));
    } else if p.mod != Mercenary && Meets(PawnTargets(Opposite(c), sq), Of(p.at, c, Pawn)) {
      from := Witness(PawnTargets(Opposite(c), sq), Of(p.at, c, Pawn));
    } else if Meets(KnightTargets(sq), Of(p.at, c, Knight)) {
      from := Witness(KnightTargets(sq), Of(p.at, c, Knight));
    } else if Meets(BishopTargets(sq, all), Of(p.at, c, Bishop) + EffectiveQueens(p, c)) {
      from := Witness(BishopTargets(sq, all), Of(p.at, c, Bishop) + EffectiveQueens(p, c));
    } else {
      from := Witness(RookTargets(sq, all), Of(p.at, c, Rook) + EffectiveQueens(p, c));
    }
    StepsSymmetric(sq, from, Opposite(c));
    SlideSymmetric(sq, from, all);
    assert ControlledBy(p, c, from, sq);
  }

  /** The reverse lookup finds an attacker if and only if some man controls the square, under the rules
      of every mod. */
  lemma LookupExact(p: Pos, sq: Square, c: Color)
    ensures Hit(p, sq, c) <==> Attacked(p, sq, c)
  {
    hide Hit, Controls;
    if Attacked(p, sq, c) {
      var from: Square :| ControlledBy(p, c, from, sq);
      ControlIsHit(p, sq, c, from);
    }
    if Hit(p, sq, c) { HitIsControl(p, sq, c); }
  }

  // ---- On the board -----------------------------------------------------------------

  method QueensThatCapture(b: Board, c: Color) returns (queens: Bitboard)
    requires b.Coherent()
    ensures queens == EffectiveQueens(b.Position(), c)
  {
    queens := b.pieces[Ix(c), KindCode(Queen)];
    if b.mod == SaveQueen {
      var all, rest := queens, queens;
      while rest != {}
        invariant rest <= all
        invariant queens == all * Half(c) + rest
        decreases rest
      {
        var sq;
        sq, rest := PopLsb(rest);
        if !OwnHalf(sq, c) { queens := queens - {sq}; }
      }
      assert all * Half(c) + {} == all * Half(c);
    }
  }

  method SquareAttacked(b: Board, sq: Square, c: Color) returns (attacked: bool)
    requires b.Coherent()
    ensures attacked <==> Attacked(b.Position(), sq, c)
  {
    ghost var p := b.Position();
    LookupExact(p, sq, c);
    hide Attacked, KingStep, KnightStep, PawnStep, BishopReach, RookReach, OwnHalf;
    var phase1 := b.mod == KingsBattle && !b.kbUnlocked;
    if !phase1 && KnightTargets(sq) * b.pieces[Ix(c), KindCode(Knight)] != {} { return true; }
    if KingTargets(sq) * b.pieces[Ix(c), KindCode(King)] != {} { return true; }
    if b.mod == Mercenary {
      if KingTargets(sq) * b.pieces[Ix(c), KindCode(Pawn)] != {} { return true; }
    } else {
      if PawnTargets(Opposite(c), sq) * b.pieces[Ix(c), KindCode(Pawn)] != {} { return true; }
    }
    if phase1 { return false; }
    var queens := QueensThatCapture(b, c);
    var diagonal := BishopAttacks(sq, b.all);
    if diagonal * (b.pieces[Ix(c), KindCode(Bishop)] + queens) != {} { return true; }
    var straight := RookAttacks(sq, b.all);
    if straight * (b.pieces[Ix(c), KindCode(Rook)] + queens) != {} { return true; }
    return false;
  }

  method BoardInCheck(b: Board, side: Color) returns (check: bool)
    requires b.Coherent()
    ensures check <==> InCheck(b.Position(), side)
  {
    hide Attacked;
    var kings := b.pieces[Ix(side), KindCode(King)];
    if kings == {} { return false; }
    var crowned := if side == White then b.heirWhite else b.heirBlack;
    if b.mod == Heir && !(crowned || b.pieces[Ix(side), KindCode(Pawn)] == {}) {
      return false;
    }
    if b.mod == Truce && b.truceActive { return false; }
    check := SquareAttacked(b, Lsb(kings), Opposite(side));
  }
}
