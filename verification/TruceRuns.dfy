/** An active truce is finite, and with one king a side and no marked castling rook no man moves twice. */
module TruceRuns {
  import opened Types
  import opened Bitboards
  import opened Position
  import opened Attacks
  import opened Making
  import opened Rules
  import opened Reachable
  import opened Totals
  import opened Runs
  import opened Legality

  /** Men that may still move. */
  function Unfrozen(p: Pos): Bitboard { All(p.at) - p.frozen }

  predicate OneKing(p: Pos, c: Color) { |Of(p.at, c, King)| <= 1 }

  /** Neither side has a second king. */
  predicate OneKingEach(p: Pos) { OneKing(p, White) && OneKing(p, Black) }

  /** Marks sit on men. Any mask can be set from outside, so this is not taken for granted. */
  predicate MarksOnMen(p: Pos) { p.frozen <= All(p.at) }

  /** A truce in progress. */
  ghost predicate InProgress(p: Pos) { InTruce(p) && Sound(p) }

  lemma SameKing(p: Pos, a: Square, b: Square)
    requires OneKing(p, p.side) && a in Of(p.at, p.side, King) && b in Of(p.at, p.side, King)
    ensures a == b
  {
    if a != b {
      assert |{a, b}| == 2;
      Contained({a, b}, Of(p.at, p.side, King));
    }
  }

  lemma {:induction false} Contained(a: Bitboard, b: Bitboard)
    requires a <= b
    ensures |a| <= |b|
    ensures a != b ==> |a| < |b|
  {
    assert b == a + (b - a);
    if a != b {
      assert b - a != {};
    }
  }

  /** The squares the move vacates: the mover's, and a castling rook's. */
  function Left(m: Move): Bitboard {
    {m.from} + if m.castle && CastlingRook(m.to).Some? then {CastlingRook(m.to).value.0} else {}
  }

  function Entered(m: Move): Bitboard {
    {m.to} + if m.castle && CastlingRook(m.to).Some? then {CastlingRook(m.to).value.1} else {}
  }

  /** A move of a truce captures nothing. It is made by a man that had not moved, unless it castles and
      the side has a second king: the generator looks at the lowest king alone. */
  lemma TruceShape(p: Pos, m: Move)
    requires Pseudo(p, m) && InProgress(p)
    ensures Fits(p, m) && !IsCapture(m) && !m.ep && m.promo != Some(King)
    ensures !m.castle || OneKing(p, p.side) ==> m.from in Unfrozen(p)
  {
    hide AwayFromHeir, QueenMove, WaySafe, CheckMatters, Reaches, Fits, EpSound;
    PseudoFits(p, m);
    FitsMover(p, m);
    if m.castle && OneKing(p, p.side) {
      CastleShape(p, m);
      assert m.from in Of(p.at, p.side, King);
      SameKing(p, m.from, Lsb(Of(p.at, p.side, King)));
    }
  }

  lemma FitsMover(p: Pos, m: Move)
    requires Fits(p, m)
    ensures p.at[m.from] == Man(p.side, m.piece) && (m.castle ==> m.piece == King)
  {
  }

  lemma StepMen(at: Placement, from: Square, to: Square, x: Piece)
    requires from != to && x != Empty
    ensures All(at[from := Empty][to := x]) == All(at) - {from} + {to}
  {
  }

  lemma TwoStepMen(at: Placement, from: Square, to: Square, x: Piece, from2: Square, to2: Square, y: Piece)
    requires from != to && from2 != to2 && from != from2 && to != to2 && from2 != to && from != to2
    requires x != Empty && y != Empty
    ensures All(at[from := Empty][to := x][from2 := Empty][to2 := y]) == All(at) - {from, from2} + {to, to2}
    ensures |{from, from2}| == |{to, to2}|
  {
    StepMen(at, from, to, x);
    StepMen(at[from := Empty][to := x], from2, to2, y);
    hide All;
    assert All(at) - {from} + {to} - {from2} + {to2} == All(at) - {from, from2} + {to, to2};
  }

  lemma CastleSquares(p: Pos, m: Move)
    requires Fits(p, m) && m.castle
    ensures CastlingRook(m.to).Some?
    ensures var rook := CastlingRook(m.to).value;
            && m.from != rook.0 && m.to != rook.1 && rook.0 != m.to && m.from != rook.1 && rook.0 != rook.1
            && AfterMove(p, m) ==
                p.at[m.from := Empty][m.to := Arrival(p, m)][rook.0 := Empty][rook.1 := Man(rook.2, Rook)]
            && p.at[rook.0] != Empty && p.at[rook.1] == Empty
  {
  }

  lemma QuietSquares(p: Pos, m: Move)
    requires Fits(p, m) && !IsCapture(m) && !m.ep
    ensures m.from != m.to && p.at[m.from] != Empty && p.at[m.to] == Empty
    ensures !m.castle ==> AfterMove(p, m) == p.at[m.from := Empty][m.to := Arrival(p, m)]
  {
  }

  lemma QuietMen(p: Pos, m: Move)
    requires Fits(p, m) && !IsCapture(m) && !m.ep
    ensures All(AfterMove(p, m)) == All(p.at) - Left(m) + Entered(m)
    ensures Left(m) <= All(p.at) && Entered(m) !! All(p.at) && |Left(m)| == |Entered(m)|
  {
    hide Fits, AfterMove, CastlingRook;
    QuietSquares(p, m);
    if m.castle {
      CastleSquares(p, m);
      var rook := CastlingRook(m.to).value;
      TwoStepMen(p.at, m.from, m.to, Arrival(p, m), rook.0, rook.1, Man(rook.2, Rook));
      assert Left(m) == {m.from, rook.0} && Entered(m) == {m.to, rook.1};
    } else {
      StepMen(p.at, m.from, m.to, Arrival(p, m));
      assert Left(m) == {m.from} && Entered(m) == {m.to};
    }
  }

  lemma QuietMarks(p: Pos, m: Move)
    requires InTruce(p) && Fits(p, m) && !IsCapture(m) && !m.ep
    ensures FrozenAfter(p, m) == p.frozen - Left(m) + Entered(m)
  {
  }

  lemma KingsConserved(p: Pos, m: Move, c: Color)
    requires Fits(p, m) && !IsCapture(m) && m.promo != Some(King)
    ensures |Of(AfterMove(p, m), c, King)| <= |Of(p.at, c, King)|
  {
    CountOf(p.at, c, King);
    CountOf(AfterMove(p, m), c, King);
    MoveTotal(p, m, Counts(c, King));
  }

  lemma CountMoved(all: Bitboard, left: Bitboard, entered: Bitboard)
    requires left <= all && entered !! all && |left| == |entered|
    ensures |all - left + entered| == |all|
  {
    assert all == (all - left) + left;
  }

  lemma TruceShrinks(p: Pos, m: Move)
    requires Pseudo(p, m) && InProgress(p)
    ensures MarksOnMen(p) ==> FrozenAfter(p, m) <= All(AfterMove(p, m))
    ensures |All(AfterMove(p, m))| == |All(p.at)|
    ensures All(AfterMove(p, m)) - FrozenAfter(p, m) == Unfrozen(p) - Left(m)
    ensures |Unfrozen(p) - Left(m)| < |Unfrozen(p)| <==> !(Left(m) <= p.frozen)
    ensures |Unfrozen(p) - Left(m)| <= |Unfrozen(p)|
    ensures !m.castle || OneKing(p, p.side) ==> !(Left(m) <= p.frozen)
  {
    hide Pseudo, Sound, AfterMove, FrozenAfter, Fits, All, Left, Entered, OneKing;
    TruceShape(p, m);
    QuietMen(p, m);
    QuietMarks(p, m);
    CountMoved(All(p.at), Left(m), Entered(m));
    LeftFrom(m);
    assert Unfrozen(p) - Left(m) == Unfrozen(p) <==> Left(m) <= p.frozen;
    Contained(Unfrozen(p) - Left(m), Unfrozen(p));
  }

  lemma LeftFrom(m: Move)
    ensures m.from in Left(m)
  {
  }

  /** Every move of a truce keeps it in progress, conserves the men, and takes the men it moves out of
      those that may still move. These shrink if and only if it moves a man that had not moved, which
      only castling with a second king on the board can fail to do. */
  lemma TruceStep(p: Pos, m: Move)
    requires Pseudo(p, m) && InProgress(p)
    ensures InProgress(Next(p, m)) && (OneKingEach(p) ==> OneKingEach(Next(p, m)))
    ensures MarksOnMen(p) ==> MarksOnMen(Next(p, m))
    ensures |All(Next(p, m).at)| == |All(p.at)|
    ensures Unfrozen(Next(p, m)) == Unfrozen(p) - Left(m) && |Unfrozen(Next(p, m))| <= |Unfrozen(p)|
    ensures |Unfrozen(Next(p, m))| < |Unfrozen(p)| <==> !(Left(m) <= p.frozen)
    ensures !m.castle || OneKing(p, p.side) ==> !(Left(m) <= p.frozen)
  {
    hide Pseudo, Sound, AfterMove, FrozenAfter, RightsAfter, EpAfter, UnlockedAfter, IdleAfter, Fits, KingsKill, All,
        Left, Of;
    TruceShape(p, m);
    TruceShrinks(p, m);
    KingsConserved(p, m, White);
    KingsConserved(p, m, Black);
    SoundKept(p, m);
  }

  function RightsLeft(r: Rights): nat { Bit(r.wk) + Bit(r.wq) + Bit(r.bk) + Bit(r.bq) }

  /** Castling uses up a right, and no move wins one. */
  lemma RightsSpent(p: Pos, m: Move)
    requires Pseudo(p, m)
    ensures RightsLeft(Next(p, m).castling) + (if m.castle then 1 else 0) <= RightsLeft(p.castling)
  {
    hide Pseudo, AfterMove, FrozenAfter, EpAfter, UnlockedAfter, IdleAfter, KingsKill;
    if m.castle {
      CastleShape(p, m);
      CastleRight(p, m);
    }
  }

  /** A truce is finite from any sound position: it has at most as many plies as there are men that had
      not moved and castling rights when it was entered. */
  lemma {:induction false} TruceBounded(p: Pos, ms: seq<Move>)
    requires InProgress(p) && Run(p, ms)
    ensures InProgress(After(p, ms)) && |All(After(p, ms).at)| == |All(p.at)|
    ensures |ms| + |Unfrozen(After(p, ms))| + RightsLeft(After(p, ms).castling) <=
            |Unfrozen(p)| + RightsLeft(p.castling)
    decreases |ms|
  {
    hide Pseudo, Next, InProgress, Unfrozen, OneKing, RightsLeft, Left;
    if ms != [] {
      TruceStep(p, ms[0]);
      RightsSpent(p, ms[0]);
      TruceBounded(Next(p, ms[0]), ms[1..]);
    }
  }

  /** With one king a side the rights do not count: each ply moves a man for the first time. */
  lemma {:induction false} TruceBoundedByMen(p: Pos, ms: seq<Move>)
    requires InProgress(p) && OneKingEach(p) && Run(p, ms)
    ensures OneKingEach(After(p, ms)) && |ms| + |Unfrozen(After(p, ms))| <= |Unfrozen(p)|
    decreases |ms|
  {
    hide Pseudo, Next, InProgress, Unfrozen, OneKing, Left;
    if ms != [] {
      assert p.side == White || p.side == Black;
      TruceStep(p, ms[0]);
      TruceBoundedByMen(Next(p, ms[0]), ms[1..]);
    }
  }

  // ---- No man moves twice -------------------------------------------------------------

  /** The move leaves every marked man on its square, still marked. */
  ghost predicate MarkedStay(p: Pos, q: Pos) {
    forall s :: s in p.frozen ==> s in q.frozen && q.at[s] == p.at[s]
  }

  /** A move disturbs a marked man if and only if it vacates a marked square, which only castling can: with a
      marked rook, or with a marked king while the side has another. */
  lemma MarkedStayExactly(p: Pos, m: Move)
    requires Pseudo(p, m) && InProgress(p) && MarksOnMen(p)
    ensures MarkedStay(p, Next(p, m)) <==> Left(m) !! p.frozen
    ensures !m.castle ==> Left(m) !! p.frozen
  {
    var q := Next(p, m);
    assert q.at == AfterMove(p, m) && q.frozen == FrozenAfter(p, m);
    assert !m.castle ==> Left(m) == {m.from};
    hide OneKing, Pseudo, Sound, AfterMove, FrozenAfter, Fits, Next, Left, Entered, MarkedStay;
    TruceShape(p, m);
    QuietMarks(p, m);
    if Left(m) !! p.frozen {
      StandStill(p, m, q);
    } else {
      QuietMen(p, m);
      Disturbed(p, q, Left(m), Entered(m));
    }
  }

  lemma Disturbed(p: Pos, q: Pos, left: Bitboard, entered: Bitboard)
    requires q.frozen == p.frozen - left + entered && left <= All(p.at) && entered !! All(p.at) && !(left !! p.frozen)
    ensures !MarkedStay(p, q)
  {
    var s :| s in left && s in p.frozen;
    assert s !in q.frozen;
  }

  lemma StandStill(p: Pos, m: Move, q: Pos)
    requires Fits(p, m) && !IsCapture(m) && !m.ep && MarksOnMen(p) && Left(m) !! p.frozen
    requires q.at == AfterMove(p, m) && q.frozen == p.frozen - Left(m) + Entered(m)
    ensures MarkedStay(p, q)
  {
    hide Fits, AfterMove, Left, Entered;
    forall s | s in p.frozen ensures s in q.frozen && q.at[s] == p.at[s] { QuietElsewhere(p, m, s); }
  }

  lemma QuietElsewhere(p: Pos, m: Move, s: Square)
    requires Fits(p, m) && !IsCapture(m) && !m.ep && s !in Left(m) && s in All(p.at)
    ensures AfterMove(p, m)[s] == p.at[s]
  {
    Untouched(p, m, s);
  }

  predicate WingUnmarked(p: Pos, w: Wing) { HasRight(p.castling, w) ==> RookHome(w) !in p.frozen }

  /** No rook that may still castle is marked. */
  predicate RooksUnmarked(p: Pos) {
    && WingUnmarked(p, Wing(White, true)) && WingUnmarked(p, Wing(White, false))
    && WingUnmarked(p, Wing(Black, true)) && WingUnmarked(p, Wing(Black, false))
  }

  lemma RooksUnmarkedKept(p: Pos, m: Move)
    requires Pseudo(p, m) && InProgress(p) && OneKing(p, p.side) && RooksUnmarked(p)
    ensures RooksUnmarked(Next(p, m)) && Left(m) !! p.frozen
  {
    hide OneKing, Pseudo, Sound, AfterMove, EpAfter, UnlockedAfter, IdleAfter, Fits, KingsKill, FrozenAfter;
    TruceShape(p, m);
    QuietMarks(p, m);
    if m.castle {
      CastleShape(p, m);
      CastleRight(p, m);
    }
  }

  lemma CastleRight(p: Pos, m: Move)
    requires Pseudo(p, m) && m.castle
    ensures HasRight(p.castling, Wing(p.side, m.to % 8 == 6))
  {
    hide MayCastle, WaySafe, CheckMatters, WayClear;
  }

  /** Once a man is marked it stands still to the end of the truce: nothing moves twice. */
  lemma {:induction false} NothingMovesTwice(p: Pos, ms: seq<Move>)
    requires InProgress(p) && MarksOnMen(p) && OneKingEach(p) && RooksUnmarked(p) && Run(p, ms)
    ensures MarkedStay(p, After(p, ms))
    decreases |ms|
  {
    hide Pseudo, Next, InProgress, RooksUnmarked, Left, OneKing;
    if ms != [] {
      var q := Next(p, ms[0]);
      assert p.side == White || p.side == Black;
      TruceStep(p, ms[0]);
      RooksUnmarkedKept(p, ms[0]);
      MarkedStayExactly(p, ms[0]);
      NothingMovesTwice(q, ms[1..]);
    }
  }

  // ---- Castling against the truce ------------------------------------------------------

  /** White king and rook at home with the right to castle, a black king far away, some men marked. */
  function TruceExample(second: bool, frozen: Bitboard): Pos {
    Pos(seq(64, s => if s == 4 then Man(White, King) else if s == 7 then Man(White, Rook)
                     else if s == 0 && second then Man(White, King)
                     else if s == 56 then Man(Black, King) else Empty),
        White, Rights(true, false, false, false), NO_SQUARE, 0, 1, Truce,
        false, false, true, frozen, {}, false, 0)
  }

  /** A marked rook moves again: it has had its move, and castling carries it along. */
  lemma MarkedRookMoves()
    ensures var p, castle := TruceExample(false, {7}), Castling(Wing(White, true));
            && InProgress(p) && MarksOnMen(p) && OneKingEach(p) && Pseudo(p, castle) && Legal(p, castle)
            && !MarkedStay(p, Next(p, castle))
  {
    var p, castle := TruceExample(false, {7}), Castling(Wing(White, true));
    assert 7 in Left(castle);
    hide Next, Pseudo, Legal, InProgress, OneKing, Left, MarkedStay;
    ExampleCastles(false, {7});
    ExampleIsLegal(false, {7});
    MarkedStayExactly(p, castle);
  }

  /** With a second king nothing need be new: king and rook have both moved, and castle all the same. */
  lemma SecondKingCastles()
    ensures var p, castle := TruceExample(true, {4, 7}), Castling(Wing(White, true));
            && InProgress(p) && MarksOnMen(p) && Pseudo(p, castle) && Legal(p, castle)
            && Unfrozen(Next(p, castle)) == Unfrozen(p)
  {
    var p, castle := TruceExample(true, {4, 7}), Castling(Wing(White, true));
    assert Left(castle) == {4, 7};
    hide Next, Pseudo, Legal, InProgress, OneKing, Left, All;
    ExampleCastles(true, {4, 7});
    ExampleIsLegal(true, {4, 7});
    TruceStep(p, castle);
  }

  lemma ExampleCastles(second: bool, frozen: Bitboard)
    requires frozen <= {4, 7} && (4 in frozen ==> second)
    ensures var p := TruceExample(second, frozen);
            InProgress(p) && MarksOnMen(p) && (!second ==> OneKingEach(p)) && Pseudo(p, Castling(Wing(White, true)))
  {
    var p := TruceExample(second, frozen);
    var kings := Of(p.at, White, King);
    assert kings == if second then {0, 4} else {4};
    assert Of(p.at, Black, King) == {56};
    assert Lsb(kings) == if second then 0 else 4;
    assert CastlesOn(p, Castling(Wing(White, true)), Wing(White, true));
  }

  lemma ExampleIsLegal(second: bool, frozen: Bitboard)
    ensures Legal(TruceExample(second, frozen), Castling(Wing(White, true)))
  {
    var p := TruceExample(second, frozen);
    var q := Next(p, Castling(Wing(White, true)));
    assert q.at == p.at[4 := Empty][6 := Man(White, King)][7 := Empty][5 := Man(White, Rook)];
    assert Of(q.at, Black, King) == {56};
    forall s: Square ensures !ControlledBy(q, White, s, 56) {
    }
  }
}
