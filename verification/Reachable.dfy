/** What every generated move keeps, and when making and unmaking it is the identity. */
module Reachable {
  import opened Types
  import opened Position
  import opened Attacks
  import opened Making
  import opened Rules

  /** The en-passant square is free. */
  predicate EpFree(p: Pos) { p.ep != NO_SQUARE ==> p.at[p.ep] == Empty }

  /** The en-passant square is the one a pawn of the other side has just jumped over. */
  predicate EpSound(p: Pos) {
    p.ep != NO_SQUARE ==>
      && Row(p.ep) == (if p.side == White then 5 else 2)
      && p.at[p.ep] == Empty
      && p.at[p.ep + 8 * Dir(p.side)] == Empty
      && p.at[p.ep - 8 * Dir(p.side)] == Man(Opposite(p.side), Pawn)
  }

  function RookHome(w: Wing): Square { Corner(w) + if w.kingside then 7 else 0 }

  predicate WingHome(p: Pos, w: Wing) {
    HasRight(p.castling, w) ==> KingAndRookHome(p, w.color, KingHome(w.color), RookHome(w))
  }

  /** Every castling right has its king and rook at home. */
  predicate RightsHome(p: Pos) {
    && WingHome(p, Wing(White, true)) && WingHome(p, Wing(White, false))
    && WingHome(p, Wing(Black, true)) && WingHome(p, Wing(Black, false))
  }

  /** The two conditions under which the position itself vouches for every generated move. */
  predicate Sound(p: Pos) { EpSound(p) && RightsHome(p) }

  /** What a caller can check of one move: a castling king and rook are at home, an en-passant
      target is empty. */
  predicate Vouched(p: Pos, m: Move) {
    && (m.castle ==> KingAndRookHome(p, p.side, KingHome(p.side), RookHome(Wing(p.side, m.to % 8 == 6))))
    && (m.ep ==> p.at[m.to] == Empty)
  }

  lemma PawnFits(p: Pos, m: Move)
    requires PawnMove(p, m) && (m.ep ==> p.at[m.to] == Empty)
    ensures Fits(p, m)
  {
    hide MayTake, MayBecome;
    assert m.ep ==> Victim(m) == Sq(Row(m.from), Col(m.to));
    assert m.from != m.to;
  }

  lemma PieceFits(p: Pos, m: Move)
    requires PieceMove(p, m)
    ensures Fits(p, m)
  {
    hide MayTake, AwayFromHeir, HeldQueen;
  }

  lemma CastleFitsHome(p: Pos, m: Move)
    requires CastleMove(p, m) && Vouched(p, m)
    ensures Fits(p, m)
  {
    hide MayCastle, WaySafe, CheckMatters;
  }

  /** A generated move that is vouched for describes the position. */
  lemma VouchedFits(p: Pos, m: Move)
    requires Pseudo(p, m) && Vouched(p, m)
    ensures Fits(p, m)
  {
    hide PawnMove, PieceMove, CastleMove, Fits;
    if PawnMove(p, m) {
      PawnFits(p, m);
    } else if PieceMove(p, m) {
      PieceFits(p, m);
    } else {
      CastleFitsHome(p, m);
    }
  }

  lemma SoundVouches(p: Pos, m: Move)
    requires Pseudo(p, m) && RightsHome(p) && EpFree(p)
    ensures Vouched(p, m)
  {
    hide MayCastle, WaySafe, CheckMatters, MayTake, MayBecome, AwayFromHeir, HeldQueen, Reaches;
  }

  /** The position vouches for every move generated in it. */
  ghost predicate AllVouched(p: Pos) { forall m :: Pseudo(p, m) ==> Vouched(p, m) }

  lemma SoundVouchesAll(p: Pos)
    requires Sound(p)
    ensures AllVouched(p)
  {
    hide Pseudo, Vouched;
    forall m | Pseudo(p, m) ensures Vouched(p, m) { SoundVouches(p, m); }
  }

  /** A capture needs no castling right. */
  lemma CaptureVouched(p: Pos, m: Move)
    requires Pseudo(p, m) && IsCapture(m) && EpFree(p)
    ensures Vouched(p, m)
  {
    hide Pseudo;
    if m.castle { CastleShape(p, m); }
    if m.ep { EpShape(p, m); }
  }

  /** From a sound position every generated move, of every mod, describes the position. */
  lemma PseudoFits(p: Pos, m: Move)
    requires Pseudo(p, m) && Sound(p)
    ensures Fits(p, m)
  {
    hide Pseudo, Vouched, Fits;
    SoundVouches(p, m);
    VouchedFits(p, m);
  }

  // ---- Making and unmaking ------------------------------------------------------

  /** What a generated castling move looks like. */
  lemma CastleShape(p: Pos, m: Move)
    requires Pseudo(p, m) && m.castle
    ensures CastleMove(p, m) && m == Castling(Wing(p.side, m.to % 8 == 6))
    ensures CastlingRook(m.to).Some? && CastlingRook(m.to).value.2 == p.side
    ensures CastlingRook(m.to).value.0 == RookHome(Wing(p.side, m.to % 8 == 6))
    ensures p.at[m.to] == Empty && p.at[CastlingRook(m.to).value.1] == Empty
  {
    hide MayCastle, WaySafe, CheckMatters;
  }

  /** What a generated en-passant capture looks like. */
  lemma EpShape(p: Pos, m: Move)
    requires Pseudo(p, m) && m.ep
    ensures m.piece == Pawn && !m.castle && m.to == p.ep && TakesEnPassant(p, m)
  {
    hide MayTake, MayBecome;
  }

  lemma RestoredCastle(st: State, m: Move)
    requires Pseudo(st.pos, m) && m.castle
    requires PlacementBefore(AfterMove(st.pos, m), st.pos.side, Record(st, m)) == st.pos.at
    ensures Vouched(st.pos, m)
  {
    hide Pseudo, AfterMove;
    CastleShape(st.pos, m);
  }

  lemma RestoredEp(st: State, m: Move)
    requires Pseudo(st.pos, m) && m.ep
    requires PlacementBefore(AfterMove(st.pos, m), st.pos.side, Record(st, m)) == st.pos.at
    ensures Vouched(st.pos, m)
  {
    hide Pseudo, AfterMove;
    EpShape(st.pos, m);
    assert Victim(m) != m.to && m.from != m.to;
  }

  lemma VouchedOtherwise(p: Pos, m: Move)
    ensures !m.castle && !m.ep ==> Vouched(p, m)
  {
  }

  /** For every position and every generated move, unmake undoes make if and only if the move is
      vouched for: castling needs king and rook at home, en passant an empty target. */
  lemma UnmakeExact(keys: Keys, st: State, m: Move)
    requires Pseudo(st.pos, m)
    ensures Unmake(Make(keys, st, m)) == st <==> Vouched(st.pos, m)
  {
    hide Pseudo, Vouched, Fits, PlacementBefore, AfterMove;
    if Vouched(st.pos, m) {
      VouchedFits(st.pos, m);
      UnmakeMake(keys, st, m);
    }
    if Unmake(Make(keys, st, m)) == st {
      LastRecord(keys, st, m);
      assert PlacementBefore(AfterMove(st.pos, m), st.pos.side, Record(st, m)) == st.pos.at;
      if m.castle { RestoredCastle(st, m); }
      if m.ep { RestoredEp(st, m); }
      VouchedOtherwise(st.pos, m);
    }
  }

  // ---- Preservation -------------------------------------------------------------

  /** Outside Heir no generated move takes a king. */
  lemma NoKingTaken(p: Pos, m: Move)
    requires Pseudo(p, m) && EpSound(p) && p.mod != Heir
    ensures m.captured != Some(King)
    ensures Taken(p, m).0.Man? ==> Taken(p, m).0.kind != King
  {
    hide MayCastle, WaySafe, CheckMatters, MayBecome, AwayFromHeir, HeldQueen, Reaches;
    if m.ep {
      assert Victim(m) == p.ep - 8 * Dir(p.side);
    }
  }

  /** The squares a move can empty or overwrite. */
  predicate Touches(m: Move, s: Square) {
    s == m.from || s == m.to || (m.ep && s == Victim(m))
    || (m.castle && CastlingRook(m.to).Some? && s == CastlingRook(m.to).value.0)
  }

  /** A man the move does not touch stays. */
  lemma Untouched(p: Pos, m: Move, s: Square)
    requires Fits(p, m) && p.at[s] != Empty && !Touches(m, s)
    ensures AfterMove(p, m)[s] == p.at[s]
  {
  }

  lemma DoublePushShape(p: Pos, m: Move)
    requires Pseudo(p, m) && p.mod != Mercenary && IsDoublePush(m)
    ensures DoublePush(p, m)
  {
    hide MayTake, MayBecome;
  }

  lemma EpKept(p: Pos, m: Move)
    requires Pseudo(p, m)
    ensures EpSound(Next(p, m))
  {
    hide Pseudo, Tracked, RightsAfter, UnlockedAfter, IdleAfter;
    if p.mod != Mercenary && IsDoublePush(m) {
      DoublePushShape(p, m);
    }
  }

  /** The move lands on the home square of a king that still has a castling right. */
  predicate StrandsRight(p: Pos, m: Move) {
    (m.to == 4 && (p.castling.wk || p.castling.wq)) || (m.to == 60 && (p.castling.bk || p.castling.bq))
  }

  lemma WingKept(p: Pos, m: Move, w: Wing)
    requires Fits(p, m) && WingHome(p, w) && !StrandsRight(p, m)
    requires m.ep ==> Taken(p, m).0 == Man(Opposite(p.side), Pawn)
    ensures WingHome(Next(p, m), w)
  {
    hide AfterMove, EpAfter, FrozenAfter, MovedAfter, KingsKill, UnlockedAfter, IdleAfter;
    if HasRight(RightsAfter(p, m), w) {
      Untouched(p, m, KingHome(w.color));
      Untouched(p, m, RookHome(w));
    }
  }

  lemma WingLost(p: Pos, m: Move, w: Wing)
    requires Fits(p, m) && WingHome(p, w) && HasRight(p.castling, w) && m.to == KingHome(w.color)
    requires p.side != w.color
    ensures m.captured == Some(King) && !WingHome(Next(p, m), w)
  {
  }

  lemma OwnKingStays(p: Pos, m: Move, c: Color)
    requires Pseudo(p, m) && Sound(p) && StrandsRight(p, m) && m.to == KingHome(c)
    ensures p.side != c
  {
    hide MayCastle, WaySafe, CheckMatters, MayBecome, AwayFromHeir, HeldQueen, Reaches;
  }

  /** From a sound position, and in every mod, a generated move leads to a sound position if and only
      if it does not take a king that still has a castling right. */
  lemma SoundKeptExactly(p: Pos, m: Move)
    requires Pseudo(p, m) && Sound(p)
    ensures Sound(Next(p, m)) <==> !StrandsRight(p, m)
    ensures StrandsRight(p, m) ==> m.captured == Some(King)
  {
    hide Pseudo, Fits, EpSound, WingHome, Next, Taken;
    EpKept(p, m);
    PseudoFits(p, m);
    if m.ep { EpVictim(p, m); }
    if StrandsRight(p, m) {
      var c := if m.to == 4 then White else Black;
      OwnKingStays(p, m, c);
      WingLost(p, m, Wing(c, if c == White then p.castling.wk else p.castling.bk));
    } else {
      WingKept(p, m, Wing(White, true));
      WingKept(p, m, Wing(White, false));
      WingKept(p, m, Wing(Black, true));
      WingKept(p, m, Wing(Black, false));
    }
  }

  /** Outside Heir every generated move keeps the position sound: castling rights have king and rook
      at home, and a set en-passant square has just been jumped over. */
  lemma SoundKept(p: Pos, m: Move)
    requires Pseudo(p, m) && Sound(p) && p.mod != Heir
    ensures Sound(Next(p, m))
  {
    hide Pseudo, Next, StrandsRight;
    NoKingTaken(p, m);
    SoundKeptExactly(p, m);
  }

  lemma EpVictim(p: Pos, m: Move)
    requires Pseudo(p, m) && EpSound(p) && m.ep
    ensures Taken(p, m).0 == Man(Opposite(p.side), Pawn)
  {
    hide MayCastle, WaySafe, CheckMatters, MayTake, MayBecome, AwayFromHeir, HeldQueen, Reaches;
    assert Victim(m) == p.ep - 8 * Dir(p.side);
  }
}
