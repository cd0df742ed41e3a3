/** The generator lists no move twice, so a list of 256 loses a move exactly when there are more. */
module MoveCount {
  import opened Types
  import opened Bitboards
  import opened Position
  import opened Attacks
  import opened Making
  import opened Rules
  import opened MoveLists
  import opened Legality

  ghost predicate Distinct<T>(s: seq<T>) { forall i, j :: 0 <= i < j < |s| ==> s[i] != s[j] }

  lemma DistinctConcat<T>(a: seq<T>, b: seq<T>)
    requires Distinct(a) && Distinct(b) && forall x :: x in a ==> x !in b
    ensures Distinct(a + b)
  {
    forall i, j | 0 <= i < j < |a| + |b| ensures (a + b)[i] != (a + b)[j] {
      if i < |a| <= j { assert a[i] in a; }
    }
  }

  lemma {:induction false} SquaresDistinct(bb: Bitboard)
    ensures Distinct(Squares(bb))
    decreases |bb|
  {
    if bb != {} {
      var x := Lsb(bb);
      SquaresDistinct(bb - {x});
      DistinctConcat([x], Squares(bb - {x}));
    }
  }

  lemma {:induction false} EmitDistinct(p: Pos, k: Kind, from: Square, tos: seq<Square>)
    requires Distinct(tos)
    ensures Distinct(Emit(p, k, from, tos))
  {
    hide Skipped;
    if tos != [] {
      EmitDistinct(p, k, from, tos[1..]);
      forall m | m in Emission(p, k, from, tos[0]) ensures m !in Emit(p, k, from, tos[1..]) {
        InEmit(p, k, from, tos[1..], m);
      }
      DistinctConcat(Emission(p, k, from, tos[0]), Emit(p, k, from, tos[1..]));
    }
  }

  lemma EmittedDistinct(p: Pos, k: Kind, from: Square, bb: Bitboard)
    ensures Distinct(Emit(p, k, from, Squares(bb)))
  {
    SquaresDistinct(bb);
    EmitDistinct(p, k, from, Squares(bb));
  }

  /** Lists for two sets of targets that do not meet. */
  lemma TwoEmissions(p: Pos, k: Kind, from: Square, a: Bitboard, b: Bitboard)
    requires a !! b
    ensures Distinct(Emit(p, k, from, Squares(a)) + Emit(p, k, from, Squares(b)))
  {
    hide Emit, Squares;
    EmittedDistinct(p, k, from, a);
    EmittedDistinct(p, k, from, b);
    forall m | m in Emit(p, k, from, Squares(a)) ensures m !in Emit(p, k, from, Squares(b)) {
      InEmitted(p, k, from, a, m);
      InEmitted(p, k, from, b, m);
    }
    DistinctConcat(Emit(p, k, from, Squares(a)), Emit(p, k, from, Squares(b)));
  }

  lemma PieceDistinct(p: Pos, k: Kind, from: Square)
    ensures Distinct(PieceFrom(p, k, from, false))
  {
    hide Emit, Squares, Targets, KingStep, OwnHalf, Reaches;
    if p.mod == SaveQueen && k == Queen {
      if OwnHalf(from, p.side) {
        TwoEmissions(p, Queen, from, EscapedTargets(p, from, false), Crossings(p, from));
      } else {
        EmittedDistinct(p, Queen, from, KingTargets(from) - All(p.at));
      }
    } else {
      EmittedDistinct(p, k, from, Targets(p, k, from));
    }
  }

  lemma {:induction false} PromotionsDistinct(from: Square, to: Square, captured: Option<Kind>, kinds: seq<Kind>)
    requires Distinct(kinds)
    ensures Distinct(Promotions(from, to, captured, kinds))
  {
    if kinds != [] {
      var first, rest := Promotion(from, to, captured, kinds[0]), Promotions(from, to, captured, kinds[1..]);
      PromotionsDistinct(from, to, captured, kinds[1..]);
      InPromotions(from, to, captured, kinds[1..], first);
      DistinctConcat([first], rest);
    }
  }

  lemma ArrivalsDistinct(p: Pos, from: Square, to: Square, captured: Option<Kind>)
    ensures Distinct(Arrivals(p, from, to, captured))
  {
    hide Attacked;
    PromotionsDistinct(from, to, captured, PromoKinds(p, to));
  }

  lemma PushesDistinct(p: Pos, from: Square)
    requires p.at[from] == Man(p.side, Pawn)
    ensures Distinct(Pushes(p, from))
  {
    hide Arrivals;
    var one := from + 8 * Dir(p.side);
    if 0 <= one < 64 && p.at[one] == Empty && Row(from) == Rank2(p.side) {
      var two := Simple(from, from + 16 * Dir(p.side), Pawn);
      ArrivalsDistinct(p, from, one, None);
      InArrivals(p, from, one, None, two);
      DistinctConcat(Arrivals(p, from, one, None), [two]);
    } else if 0 <= one < 64 {
      ArrivalsDistinct(p, from, one, None);
    }
  }

  lemma SidewaysDistinct(p: Pos, from: Square, dc: int)
    ensures Distinct(Sideways(p, from, dc))
  {
    hide Arrivals, MayTake, Refused;
    var r, c := Row(from) + Dir(p.side), Col(from) + dc;
    if OnBoard(r, c) {
      var to := Sq(r, c);
      if p.at[to].Man? {
        var kind := Some(p.at[to].kind);
        ArrivalsDistinct(p, from, to, kind);
        forall m | m in Arrivals(p, from, to, kind) ensures m !in EnPassant(p, from, to) {
          InArrivals(p, from, to, kind, m);
        }
        DistinctConcat(Arrivals(p, from, to, kind), EnPassant(p, from, to));
      }
    }
  }

  lemma BothSidesDistinct(p: Pos, from: Square)
    requires p.at[from] == Man(p.side, Pawn) && !InTruce(p)
    ensures Distinct(Sideways(p, from, -1) + Sideways(p, from, 1))
  {
    hide Sideways, PawnTakes, TakesEnPassant;
    SidewaysDistinct(p, from, -1);
    SidewaysDistinct(p, from, 1);
    forall m | m in Sideways(p, from, -1) ensures m !in Sideways(p, from, 1) {
      InSideways(p, from, -1, m);
      InSideways(p, from, 1, m);
    }
    DistinctConcat(Sideways(p, from, -1), Sideways(p, from, 1));
  }

  /** A push is no capture, and a capture no push. */
  lemma PushOrTake(p: Pos, m: Move)
    ensures Push(p, m) || DoublePush(p, m) ==> !PawnTakes(p, m) && !TakesEnPassant(p, m)
  {
  }

  lemma PawnDistinct(p: Pos, from: Square)
    requires p.at[from] == Man(p.side, Pawn)
    ensures Distinct(PawnFrom(p, from, false))
  {
    hide Emit, Squares, Pushes, Sideways, KingStep, Push, DoublePush, PawnTakes, TakesEnPassant;
    if p.mod == Mercenary {
      TwoEmissions(p, Pawn, from, KingTargets(from) - All(p.at), KingTargets(from) * Occupied(p.at, Opposite(p.side)));
    } else {
      PushesDistinct(p, from);
      if !InTruce(p) {
        var sides := Sideways(p, from, -1) + Sideways(p, from, 1);
        BothSidesDistinct(p, from);
        forall m | m in Pushes(p, from) ensures m !in sides {
          InPushes(p, from, m);
          InSideways(p, from, -1, m);
          InSideways(p, from, 1, m);
          PushOrTake(p, m);
        }
        DistinctConcat(Pushes(p, from), sides);
      } else {
        assert Pushes(p, from) + [] == Pushes(p, from);
      }
    }
  }

  lemma {:induction false} FromAllDistinct(p: Pos, k: Kind, froms: seq<Square>)
    requires Distinct(froms) && forall s :: s in froms ==> s in Movers(p, k)
    requires Locked(p) ==> k == King || k == Pawn
    ensures Distinct(FromAll(p, k, froms, false))
  {
    hide PieceFrom, PawnFrom, PieceMove, PawnMove;
    if froms != [] {
      var first, rest := FromOne(p, k, froms[0], false), FromAll(p, k, froms[1..], false);
      FromAllDistinct(p, k, froms[1..]);
      assert froms[0] in Movers(p, k);
      if k == Pawn { PawnDistinct(p, froms[0]); } else { PieceDistinct(p, k, froms[0]); }
      forall m | m in first ensures m !in rest {
        InFromOne(p, k, froms[0], m);
        InFromAll(p, k, froms[1..], m);
      }
      DistinctConcat(first, rest);
    }
  }

  lemma OfKindDistinct(p: Pos, k: Kind)
    ensures Distinct(OfKind(p, k, false))
  {
    hide FromAll, Squares;
    if !(Locked(p) && k != Pawn && k != King) {
      SquaresDistinct(Movers(p, k));
      FromAllDistinct(p, k, Squares(Movers(p, k)));
    }
  }

  /** Two lists whose moves are of different kinds. */
  lemma Append(p: Pos, ms: seq<Move>, k: Kind)
    requires Distinct(ms) && forall m :: m in ms ==> m.piece != k
    ensures Distinct(ms + OfKind(p, k, false))
    ensures forall m :: m in ms + OfKind(p, k, false) ==> m in ms || m.piece == k
  {
    hide OfKind, PawnMove, PieceMove;
    OfKindDistinct(p, k);
    forall m | m in OfKind(p, k, false) ensures m.piece == k { InOfKind(p, k, m); }
    DistinctConcat(ms, OfKind(p, k, false));
  }

  lemma ByKindDistinct(p: Pos)
    ensures Distinct(ByKind(p, false))
  {
    hide OfKind, Distinct;
    OfKindDistinct(p, Pawn);
    var pawns := OfKind(p, Pawn, false);
    forall m | m in pawns ensures m.piece == Pawn { InOfKind(p, Pawn, m); }
    Append(p, pawns, Knight);
    var knights := pawns + OfKind(p, Knight, false);
    Append(p, knights, Bishop);
    var bishops := knights + OfKind(p, Bishop, false);
    Append(p, bishops, Rook);
    var rooks := bishops + OfKind(p, Rook, false);
    Append(p, rooks, Queen);
    Append(p, rooks + OfKind(p, Queen, false), King);
  }

  lemma NoCastling(p: Pos, k: Kind, m: Move)
    requires m in OfKind(p, k, false)
    ensures !m.castle
  {
    hide OfKind;
    InOfKind(p, k, m);
  }

  /** No move is listed twice. */
  lemma PseudoMovesDistinct(p: Pos)
    ensures Distinct(PseudoMoves(p))
  {
    hide OfKind, MayCastle, MayCastleOn;
    ByKindDistinct(p);
    forall m | m in ByKind(p, false) ensures !m.castle {
      var k :| m in OfKind(p, k, false);
      NoCastling(p, k, m);
    }
    DistinctConcat(ByKind(p, false), Castlings(p));
  }

  /** Every move the rules allow survives in the list if and only if there are at most 256. */
  lemma DropsNothingExactly(p: Pos)
    ensures (forall m :: Pseudo(p, m) ==> m in Clip(PseudoMoves(p))) <==> |PseudoMoves(p)| <= MAX_MOVES
  {
    hide Pseudo, PseudoMoves;
    forall m ensures m in PseudoMoves(p) <==> Pseudo(p, m) { InPseudoMoves(p, m); }
    var all := PseudoMoves(p);
    if |all| > MAX_MOVES {
      Dropped(p, MAX_MOVES);
      assert Pseudo(p, all[MAX_MOVES]);
    }
  }

  lemma ClipKeepsFirst(all: seq<Move>, i: nat)
    requires i < |all|
    ensures i < MAX_MOVES ==> all[i] in Clip(all)
  {
    if i < MAX_MOVES { assert Clip(all)[i] == all[i]; }
  }

  lemma Dropped(p: Pos, i: nat)
    requires MAX_MOVES <= i < |PseudoMoves(p)|
    ensures PseudoMoves(p)[i] !in Clip(PseudoMoves(p))
  {
    hide PseudoMoves;
    PseudoMovesDistinct(p);
  }

  /** Every legal move is generated if and only if none of those past the 256th is legal. */
  lemma LegalCompleteExactly(p: Pos)
    ensures (forall m :: Pseudo(p, m) && Legal(p, m) ==> m in LegalMoves(p)) <==>
            (forall i :: MAX_MOVES <= i < |PseudoMoves(p)| ==> !Legal(p, PseudoMoves(p)[i]))
  {
    hide Pseudo, PseudoMoves, Legal, KeepLegal;
    var all := PseudoMoves(p);
    forall m ensures m in LegalMoves(p) <==> m in Clip(all) && Legal(p, m) { InKeepLegal(p, Clip(all), m); }
    forall m ensures m in all <==> Pseudo(p, m) { InPseudoMoves(p, m); }
    forall i | MAX_MOVES <= i < |all| ensures all[i] !in Clip(all) && Pseudo(p, all[i]) { Dropped(p, i); }
    forall m | Pseudo(p, m) && m !in Clip(all)
      ensures exists i :: MAX_MOVES <= i < |all| && all[i] == m
    {
      var i :| 0 <= i < |all| && all[i] == m;
      ClipKeepsFirst(all, i);
    }
  }

  // ---- A position with more than 256 moves ------------------------------------------------

  /** A square with all eight neighbours on the board. */
  predicate Inner(s: int) { 1 <= s / 8 <= 6 && 1 <= s % 8 <= 6 }

  /** Friendly Fire: thirty-six white queens that have all moved, each free to take its neighbours. */
  function CrowdedQueens(): Pos {
    Pos(seq(64, s => if Inner(s) then Man(White, Queen) else Empty),
        White, Rights(false, false, false, false), NO_SQUARE, 0, 1, FriendlyFire,
        false, false, false, {}, set s: Square | Inner(s), false, 0)
  }

  function InnerBefore(n: nat): nat {
    var row, col := n / 8, n % 8;
    if row == 0 then 0
    else if row <= 6 then 6 * (row - 1) + (if col == 0 then 0 else if col == 7 then 6 else col - 1)
    else 36
  }

  lemma InnerStep(n: nat)
    requires 0 < n <= 64
    ensures InnerBefore(n) == InnerBefore(n - 1) + if Inner(n - 1) then 1 else 0
  {
    var row, col := (n - 1) / 8, (n - 1) % 8;
    assert n - 1 == 8 * row + col;
    if col == 7 {
      assert n == 8 * (row + 1);
    } else {
      assert n == 8 * row + (col + 1);
    }
  }

  lemma {:induction false} InnerCount(n: nat)
    requires n <= 64
    ensures |set s: Square | s < n && Inner(s)| == InnerBefore(n)
  {
    hide Inner, InnerBefore;
    var inner := set s: Square | s < n && Inner(s);
    if n > 0 {
      InnerCount(n - 1);
      InnerStep(n);
      var fewer := set s: Square | s < n - 1 && Inner(s);
      assert inner == if Inner(n - 1) then fewer + {n - 1} else fewer;
    } else {
      assert inner == {};
      NoneBefore();
    }
  }

  lemma NoneBefore()
    ensures InnerBefore(0) == 0
  {
  }

  lemma EightTargets(p: Pos, s: Square)
    requires p == CrowdedQueens() && Inner(s)
    ensures |Targets(p, Queen, s)| >= 8
  {
    var near := Neighbours(s);
    hide Targets, CrowdedQueens, Neighbours;
    NeighboursAreNear(s);
    forall t | t in near ensures t in Targets(p, Queen, s) { NeighbourTarget(p, s, t); }
    var more := Targets(p, Queen, s) - near;
    assert Targets(p, Queen, s) == near + more;
  }

  function Neighbours(s: Square): Bitboard
    requires Inner(s)
  {
    {s - 9, s - 8, s - 7, s - 1, s + 1, s + 7, s + 8, s + 9}
  }

  lemma NeighboursAreNear(s: Square)
    requires Inner(s)
    ensures |Neighbours(s)| == 8 && forall t :: t in Neighbours(s) ==> KingStep(s, t)
  {
    var row, col := s / 8, s % 8;
    assert s == 8 * row + col;
    forall t | t in Neighbours(s) ensures KingStep(s, t) {
      var dr :| -1 <= dr <= 1 && (t - s == 8 * dr - 1 || t - s == 8 * dr || t - s == 8 * dr + 1);
      assert t == 8 * (row + dr) + (t - s - 8 * dr + col);
      assert Row(t) == row + dr && Col(t) == t - s - 8 * dr + col;
    }
    hide Inner;
    EightSquares(s);
  }

  lemma EightSquares(s: int)
    ensures |{s - 9, s - 8, s - 7, s - 1, s + 1, s + 7, s + 8, s + 9}| == 8
  {
  }

  lemma NeighbourTarget(p: Pos, s: Square, t: Square)
    requires p == CrowdedQueens() && KingStep(s, t)
    ensures t in Targets(p, Queen, s)
  {
    assert Diagonal(s, t) || Orthogonal(s, t);
    assert Reaches(p.at, Queen, s, t);
  }

  lemma {:induction false} EveryTargetEmits(p: Pos, from: Square, tos: seq<Square>)
    requires p == CrowdedQueens()
    ensures |Emit(p, Queen, from, tos)| == |tos|
  {
    if tos != [] { EveryTargetEmits(p, from, tos[1..]); }
  }

  lemma {:induction false} EightEach(p: Pos, froms: seq<Square>)
    requires p == CrowdedQueens() && forall s :: s in froms ==> Inner(s)
    ensures |FromAll(p, Queen, froms, false)| >= 8 * |froms|
  {
    hide Targets, Emit, Squares;
    if froms != [] {
      EightTargets(p, froms[0]);
      EveryTargetEmits(p, froms[0], Squares(Targets(p, Queen, froms[0])));
      EightEach(p, froms[1..]);
    }
  }

  lemma CrowdedCount(p: Pos)
    requires p == CrowdedQueens()
    ensures |PseudoMoves(p)| >= 288
  {
    hide FromAll, Squares, Castlings;
    var queens := Movers(p, Queen);
    InnerCount(64);
    assert queens == set s: Square | s < 64 && Inner(s);
    EightEach(p, Squares(queens));
    assert |OfKind(p, Queen, false)| >= 288;
  }

  /** The generator does lose a legal move here. */
  lemma LegalMoveDropped()
    ensures exists m :: Pseudo(CrowdedQueens(), m) && Legal(CrowdedQueens(), m) && m !in LegalMoves(CrowdedQueens())
  {
    var p := CrowdedQueens();
    hide Pseudo, PseudoMoves, Legal, LegalMoves, CrowdedQueens;
    CrowdedCount(p);
    var m := PseudoMoves(p)[MAX_MOVES];
    InPseudoMoves(p, m);
    KinglessIsLegal(p, m);
    LegalCompleteExactly(p);
  }

  lemma KinglessIsLegal(p: Pos, m: Move)
    requires p == CrowdedQueens() && Pseudo(p, m)
    ensures Legal(p, m)
  {
    hide Pseudo, Attacked;
    StillKingless(p, m);
  }

  lemma StillKingless(p: Pos, m: Move)
    requires p == CrowdedQueens() && Pseudo(p, m)
    ensures Of(Next(p, m).at, White, King) == {} && Next(p, m).mod == FriendlyFire
  {
    hide Reaches, AwayFromHeir, MayTake;
  }
}
