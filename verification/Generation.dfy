/** The move generator on the mutable board. */
module Generation {
  import opened Types
  import opened Bitboards
  import opened Position
  import opened Attacks
  import opened AttackTables
  import opened Boards
  import opened Rules
  import opened MoveLists
  import opened Legality
  import opened AttackLookup

  class MoveList {
    var moves: seq<Move>

    constructor ()
      ensures moves == []
    {
      moves := [];
    }

    ghost predicate Valid()
      reads this
    {
      |moves| <= MAX_MOVES
    }

    /** Append, silently dropping what does not fit. */
    method Add(m: Move)
      requires Valid()
      modifies this
      ensures Valid() && moves == Clip(old(moves) + [m])
    {
      if |moves| < MAX_MOVES {
        moves := moves + [m];
      }
    }
  }

  lemma ClipThree(a: seq<Move>, b: seq<Move>, c: seq<Move>)
    ensures Clip(Clip(a + b) + c) == Clip(a + (b + c))
  {
    ClipAppend(a + b, c);
    assert a + b + c == a + (b + c);
  }

  lemma ClipNothing(a: seq<Move>)
    requires |a| <= MAX_MOVES
    ensures Clip(a + []) == a && Clip(a) == a
  {
    assert a + [] == a;
  }

  // ---- Pieces -------------------------------------------------------------------

  /** One move from `from` to `to`, unless the man there is never taken. */
  method AddTarget(b: Board, ml: MoveList, k: Kind, from: Square, to: Square)
    requires b.Coherent() && ml.Valid()
    modifies ml
    ensures ml.Valid() && ml.moves == Clip(old(ml.moves) + Emission(b.Position(), k, from, to))
  {
    var target := b.mailbox[to];
    var them := Opposite(b.side);
    if target != Empty {
      var capt := target.kind;
      if capt == King && (b.mod != Heir || k == King) {
        assert old(ml.moves) + [] == old(ml.moves);
        return;
      }
      if b.mod == SaveQueen && k != Queen && capt == Queen && !OwnHalf(to, them) && b.mailbox[Prison(them)] != Empty {
        assert old(ml.moves) + [] == old(ml.moves);
        return;
      }
      ml.Add(Capture(from, to, k, capt));
    } else {
      ml.Add(Simple(from, to, k));
    }
  }

  /** The moves to a set of targets, least square first. */
  method AddTargets(b: Board, ml: MoveList, k: Kind, from: Square, targets: Bitboard)
    requires b.Coherent() && ml.Valid()
    modifies ml
    ensures ml.Valid() && ml.moves == Clip(old(ml.moves) + Emit(b.Position(), k, from, Squares(targets)))
  {
    ghost var p, before := b.Position(), ml.moves;
    hide Emission;
    var rest := targets;
    while rest != {}
      invariant ml.Valid()
      invariant Clip(ml.moves + Emit(p, k, from, Squares(rest))) == Clip(before + Emit(p, k, from, Squares(targets)))
    {
      var to;
      ghost var sofar := ml.moves;
      to, rest := PopLsb(rest);
      AddTarget(b, ml, k, from, to);
      ClipThree(sofar, Emission(p, k, from, to), Emit(p, k, from, Squares(rest)));
    }
    assert ml.moves + [] == ml.moves;
  }

  method ReachOf(b: Board, k: Kind, from: Square) returns (targets: Bitboard)
    requires b.Coherent() && k != Pawn
    ensures targets == BaseTargets(b.At(), k, from)
  {
    match k
    case Knight => targets := KnightTargets(from);
    case Bishop => targets := BishopAttacks(from, b.all);
    case Rook => targets := RookAttacks(from, b.all);
    case Queen =>
      var diagonal := BishopAttacks(from, b.all);
      var straight := RookAttacks(from, b.all);
      targets := diagonal + straight;
    case King => targets := KingTargets(from);
  }

  /** The targets of an ordinary piece, narrowed rule by rule. */
  method TargetsOf(b: Board, k: Kind, from: Square, capturesOnly: bool) returns (targets: Bitboard)
    requires b.Coherent() && k != Pawn
    ensures targets == Masked(Targets(b.Position(), k, from), capturesOnly, CaptureMask(b.Position()))
  {
    hide BaseTargets;
    var us, them := b.side, Opposite(b.side);
    targets := ReachOf(b, k, from);
    if b.mod == FriendlyFire {
      var uncapturable := (b.occupied[Ix(us)] - b.ffMoved) + b.pieces[Ix(us), KindCode(King)];
      targets := targets - uncapturable;
    } else {
      targets := targets - b.occupied[Ix(us)];
    }
    if k == King && b.mod == Heir {
      var kings := b.pieces[Ix(them), KindCode(King)];
      if kings != {} {
        targets := targets - KingTargets(Lsb(kings));
        targets := targets - {Lsb(kings)};
      }
    }
    if k == King && b.mod == KingsBattle && !b.kbUnlocked {
      targets := targets - b.pieces[Ix(them), KindCode(King)];
    }
    if b.mod == Truce && b.truceActive {
      targets := targets - b.occupied[Ix(them)];
    }
    if capturesOnly {
      if b.mod == FriendlyFire {
        var own := b.occupied[Ix(us)] * b.ffMoved - b.pieces[Ix(us), KindCode(King)];
        targets := targets * (b.occupied[Ix(them)] + own);
      } else {
        targets := targets * b.occupied[Ix(them)];
      }
    }
  }

  /** Where an escaped queen of Save the Queen goes within her own half. */
  method EscapedTargetsOf(b: Board, from: Square, capturesOnly: bool) returns (targets: Bitboard)
    requires b.Coherent()
    ensures targets == EscapedTargets(b.Position(), from, capturesOnly)
  {
    hide BaseTargets, KingStep, OwnHalf;
    var us, them := b.side, Opposite(b.side);
    var sliding := ReachOf(b, Queen, from);
    sliding := sliding - b.occupied[Ix(us)];
    sliding := sliding - b.pieces[Ix(them), KindCode(Queen)];
    targets := sliding * Half(us);
    if capturesOnly {
      targets := targets * b.occupied[Ix(them)];
    }
    var held := b.pieces[Ix(them), KindCode(Queen)] * Half(us);
    if held != {} {
      var psq := Lsb(held);
      if psq == Prison(them) && psq in KingTargets(from) {
        targets := targets + {psq};
      }
    }
  }

  method AddEscapedMoves(b: Board, ml: MoveList, from: Square, capturesOnly: bool)
    requires b.Coherent() && ml.Valid() && OwnHalf(from, b.side)
    modifies ml
    ensures ml.Valid() && ml.moves == Clip(old(ml.moves) + QueenList(b.Position(), from, capturesOnly))
  {
    ghost var p, before := b.Position(), ml.moves;
    var crossings := KingTargets(from) - b.all - Half(b.side);
    assert crossings == Crossings(p, from);
    hide Emit, Squares, OwnHalf, KingStep, EscapedTargets, Crossings, Clip, Board.Coherent;
    var own := EscapedTargetsOf(b, from, capturesOnly);
    AddTargets(b, ml, Queen, from, own);
    if !capturesOnly {
      AddTargets(b, ml, Queen, from, crossings);
      ClipThree(before, Emit(p, Queen, from, Squares(own)), Emit(p, Queen, from, Squares(crossings)));
    } else {
      assert Emit(p, Queen, from, Squares(own)) + [] == Emit(p, Queen, from, Squares(own));
    }
  }

  method AddQueenMoves(b: Board, ml: MoveList, from: Square, capturesOnly: bool)
    requires b.Coherent() && ml.Valid()
    modifies ml
    ensures ml.Valid() && ml.moves == Clip(old(ml.moves) + QueenList(b.Position(), from, capturesOnly))
  {
    if OwnHalf(from, b.side) {
      AddEscapedMoves(b, ml, from, capturesOnly);
      return;
    }
    hide Emit, Squares, OwnHalf, KingStep, EscapedTargets, Crossings, Clip;
    ClipNothing(ml.moves);
    if !capturesOnly {
      AddTargets(b, ml, Queen, from, KingTargets(from) - b.all);
    }
  }

  method AddPieceMoves(b: Board, ml: MoveList, k: Kind, from: Square, capturesOnly: bool)
    requires b.Coherent() && ml.Valid() && k != Pawn
    modifies ml
    ensures ml.Valid() && ml.moves == Clip(old(ml.moves) + PieceFrom(b.Position(), k, from, capturesOnly))
  {
    hide Emit, Squares, QueenList, Targets, CaptureMask;
    if b.mod == SaveQueen && k == Queen {
      AddQueenMoves(b, ml, from, capturesOnly);
    } else {
      var targets := TargetsOf(b, k, from, capturesOnly);
      AddTargets(b, ml, k, from, targets);
    }
  }

  // ---- Pawns --------------------------------------------------------------------

  method AddPromotions(ml: MoveList, from: Square, to: Square, captured: Option<Kind>, kinds: seq<Kind>)
    requires ml.Valid()
    modifies ml
    ensures ml.Valid() && ml.moves == Clip(old(ml.moves) + Promotions(from, to, captured, kinds))
  {
    ghost var before := ml.moves;
    var i := 0;
    while i < |kinds|
      invariant 0 <= i <= |kinds| && ml.Valid()
      invariant Clip(ml.moves + Promotions(from, to, captured, kinds[i..])) ==
                Clip(before + Promotions(from, to, captured, kinds))
    {
      ghost var sofar := ml.moves;
      ml.Add(Promotion(from, to, captured, kinds[i]));
      assert kinds[i..][1..] == kinds[i + 1..];
      ClipThree(sofar, [Promotion(from, to, captured, kinds[i])], Promotions(from, to, captured, kinds[i + 1..]));
      i := i + 1;
    }
    assert ml.moves + [] == ml.moves;
  }

  /** Succession: no queen; a king only while there is none and the square is safe, and always a king
      with the last pawn. */
  method SuccessionKinds(b: Board, to: Square) returns (kinds: seq<Kind>)
    requires b.Coherent() && b.mod == Succession
    ensures kinds == PromoKinds(b.Position(), to)
  {
    hide Attacked;
    var us, them := b.side, Opposite(b.side);
    var hasKing := b.pieces[Ix(us), KindCode(King)] != {};
    var lastPawn := |b.pieces[Ix(us), KindCode(Pawn)]| <= 1;
    var attacked := SquareAttacked(b, to, them);
    if lastPawn && !hasKing {
      return if !attacked then [King] else [];
    }
    kinds := [Rook, Bishop, Knight];
    if !hasKing && !attacked {
      kinds := kinds + [King];
    }
  }

  method HeirKinds(b: Board, to: Square) returns (kinds: seq<Kind>)
    requires b.Coherent() && b.mod == Heir
    ensures kinds == PromoKinds(b.Position(), to)
  {
    hide Attacked;
    var hasKing := b.pieces[Ix(b.side), KindCode(King)] != {};
    var mayCrown := !(if b.side == White then b.heirWhite else b.heirBlack);
    if !hasKing && mayCrown {
      return [King];
    }
    kinds := [Queen, Rook, Bishop, Knight];
    if mayCrown {
      kinds := kinds + [King];
    }
  }

  method AddArrivals(b: Board, ml: MoveList, from: Square, to: Square, captured: Option<Kind>)
    requires b.Coherent() && ml.Valid()
    modifies ml
    ensures ml.Valid() && ml.moves == Clip(old(ml.moves) + Arrivals(b.Position(), from, to, captured))
  {
    hide Attacked;
    if Row(from) == Rank7(b.side) {
      var kinds;
      if b.mod == Heir {
        kinds := HeirKinds(b, to);
      } else if b.mod == Succession {
        kinds := SuccessionKinds(b, to);
      } else {
        kinds := [Queen, Rook, Bishop, Knight];
        if b.mod == SaveQueen { kinds := kinds[1..]; }
      }
      AddPromotions(ml, from, to, captured, kinds);
    } else {
      ml.Add(Move(from, to, Pawn, captured, false, false, None));
    }
  }

  method AddPushes(b: Board, ml: MoveList, from: Square)
    requires b.Coherent() && ml.Valid()
    modifies ml
    ensures ml.Valid() && ml.moves == Clip(old(ml.moves) + Pushes(b.Position(), from))
  {
    hide Arrivals;
    ghost var p, before := b.Position(), ml.moves;
    assert before + [] == before;
    var one := from + 8 * Dir(b.side);
    if 0 <= one < 64 && b.mailbox[one] == Empty {
      AddArrivals(b, ml, from, one, None);
      ghost var single := Arrivals(p, from, one, None);
      assert single + [] == single;
      if Row(from) == Rank2(b.side) {
        var two := from + 16 * Dir(b.side);
        if b.mailbox[two] == Empty {
          ml.Add(Simple(from, two, Pawn));
          ClipThree(before, single, [Simple(from, two, Pawn)]);
        }
      }
    }
  }

  /** A capture of the man on `to`, if it may be taken: an enemy, or in Friendly Fire an own moved man. */
  method AddTakes(b: Board, ml: MoveList, from: Square, to: Square) returns (refused: bool)
    requires b.Coherent() && ml.Valid() && !(b.mod == Truce && b.truceActive)
    modifies ml
    ensures var p := b.Position();
            ml.Valid() && ml.moves == Clip(old(ml.moves) +
              if p.at[to].Man? && MayTake(p, Pawn, to) then Arrivals(p, from, to, Some(p.at[to].kind)) else [])
    ensures refused <==> Refused(b.Position(), to)
  {
    hide Arrivals;
    assert ml.moves + [] == ml.moves;
    var target, us, them := b.mailbox[to], b.side, Opposite(b.side);
    if target != Empty && target.color == them {
      if target.kind == King && b.mod != Heir { return true; }
      if b.mod == SaveQueen && target.kind == Queen && !OwnHalf(to, them) && b.mailbox[Prison(them)] != Empty {
        return true;
      }
      AddArrivals(b, ml, from, to, Some(target.kind));
    }
    if b.mod == FriendlyFire && target != Empty && target.color == us && target.kind != King && to in b.ffMoved {
      AddArrivals(b, ml, from, to, Some(target.kind));
    }
    return false;
  }

  method AddEnPassant(b: Board, ml: MoveList, from: Square, to: Square)
    requires b.Coherent() && ml.Valid()
    modifies ml
    ensures ml.Valid() && ml.moves == Clip(old(ml.moves) + EnPassant(b.Position(), from, to))
  {
    assert ml.moves + [] == ml.moves;
    if to == b.ep && b.ep != NO_SQUARE {
      var victim := b.mailbox[Sq(Row(from), Col(to))];
      if victim != Empty && victim.color == Opposite(b.side) {
        ml.Add(Move(from, to, Pawn, Some(victim.kind), false, true, None));
      }
    }
  }

  method AddSideways(b: Board, ml: MoveList, from: Square, dc: int)
    requires b.Coherent() && ml.Valid() && !(b.mod == Truce && b.truceActive)
    modifies ml
    ensures ml.Valid() && ml.moves == Clip(old(ml.moves) + Sideways(b.Position(), from, dc))
  {
    hide Arrivals, MayTake, EnPassant;
    ghost var p, before := b.Position(), ml.moves;
    assert before + [] == before;
    var r, c := Row(from) + Dir(b.side), Col(from) + dc;
    if OnBoard(r, c) {
      var to := Sq(r, c);
      var refused := AddTakes(b, ml, from, to);
      if refused { return; }
      AddEnPassant(b, ml, from, to);
      ghost var takes := p.at[to].Man? && MayTake(p, Pawn, to);
      ClipThree(before, if takes then Arrivals(p, from, to, Some(p.at[to].kind)) else [], EnPassant(p, from, to));
    }
  }

  method AddMercenaryMoves(b: Board, ml: MoveList, from: Square, capturesOnly: bool)
    requires b.Coherent() && ml.Valid() && b.mod == Mercenary
    modifies ml
    ensures ml.Valid() && ml.moves == Clip(old(ml.moves) + PawnFrom(b.Position(), from, capturesOnly))
  {
    hide Emit, Squares, KingStep, Pushes, Sideways;
    ghost var p, before := b.Position(), ml.moves;
    var targets := KingTargets(from);
    ghost var quiet := if capturesOnly then [] else Emit(p, Pawn, from, Squares(targets - All(p.at)));
    ClipNothing(before);
    if !capturesOnly {
      AddTargets(b, ml, Pawn, from, targets - b.all);
    }
    AddTargets(b, ml, Pawn, from, targets * b.occupied[Ix(Opposite(b.side))]);
    ClipThree(before, quiet, Emit(p, Pawn, from, Squares(targets * Occupied(p.at, Opposite(p.side)))));
  }

  method AddBothSides(b: Board, ml: MoveList, from: Square)
    requires b.Coherent() && ml.Valid() && !(b.mod == Truce && b.truceActive)
    modifies ml
    ensures var p := b.Position();
            ml.Valid() && ml.moves == Clip(old(ml.moves) + (Sideways(p, from, -1) + Sideways(p, from, 1)))
  {
    hide Sideways, Clip;
    ghost var p, before := b.Position(), ml.moves;
    AddSideways(b, ml, from, -1);
    AddSideways(b, ml, from, 1);
    ClipThree(before, Sideways(p, from, -1), Sideways(p, from, 1));
  }

  method AddPawnMoves(b: Board, ml: MoveList, from: Square, capturesOnly: bool)
    requires b.Coherent() && ml.Valid()
    modifies ml
    ensures ml.Valid() && ml.moves == Clip(old(ml.moves) + PawnFrom(b.Position(), from, capturesOnly))
  {
    if b.mod == Mercenary {
      AddMercenaryMoves(b, ml, from, capturesOnly);
      return;
    }
    hide Pushes, Sideways, Clip;
    ghost var p, before := b.Position(), ml.moves;
    ClipNothing(before);
    if !capturesOnly {
      AddPushes(b, ml, from);
    }
    ghost var pushes := if capturesOnly then [] else Pushes(p, from);
    if !(b.mod == Truce && b.truceActive) {
      AddBothSides(b, ml, from);
      ClipThree(before, pushes, Sideways(p, from, -1) + Sideways(p, from, 1));
    } else {
      assert pushes + [] == pushes;
    }
  }

  // ---- All moves ------------------------------------------------------------------

  method AddFrom(b: Board, ml: MoveList, k: Kind, from: Square, capturesOnly: bool)
    requires b.Coherent() && ml.Valid()
    modifies ml
    ensures ml.Valid() && ml.moves == Clip(old(ml.moves) + FromOne(b.Position(), k, from, capturesOnly))
  {
    hide PawnFrom, PieceFrom, Clip;
    if k == Pawn {
      AddPawnMoves(b, ml, from, capturesOnly);
    } else {
      AddPieceMoves(b, ml, k, from, capturesOnly);
    }
  }

  method AddFromAll(b: Board, ml: MoveList, k: Kind, men: Bitboard, capturesOnly: bool)
    requires b.Coherent() && ml.Valid()
    modifies ml
    ensures ml.Valid() && ml.moves == Clip(old(ml.moves) + FromAll(b.Position(), k, Squares(men), capturesOnly))
  {
    hide FromOne, Clip;
    ghost var p, before := b.Position(), ml.moves;
    var rest := men;
    while rest != {}
      invariant ml.Valid()
      invariant Clip(ml.moves + FromAll(p, k, Squares(rest), capturesOnly)) ==
                Clip(before + FromAll(p, k, Squares(men), capturesOnly))
    {
      var from;
      ghost var sofar := ml.moves;
      from, rest := PopLsb(rest);
      AddFrom(b, ml, k, from, capturesOnly);
      ClipThree(sofar, FromOne(p, k, from, capturesOnly), FromAll(p, k, Squares(rest), capturesOnly));
    }
    ClipNothing(ml.moves);
  }

  /** The men of one kind that may move. */
  method MenOf(b: Board, k: Kind) returns (men: Bitboard)
    requires b.Coherent()
    ensures men == Movers(b.Position(), k)
  {
    hide Of;
    men := b.pieces[Ix(b.side), KindCode(k)];
    if b.mod == Truce && b.truceActive { men := men - b.frozen; } else { assert men - {} == men; }
  }

  /** The moves of every man of one kind. */
  method AddKind(b: Board, ml: MoveList, k: Kind, capturesOnly: bool)
    requires b.Coherent() && ml.Valid()
    modifies ml
    ensures ml.Valid() && ml.moves == Clip(old(ml.moves) + OfKind(b.Position(), k, capturesOnly))
  {
    hide FromAll, Clip, Squares, Movers;
    ClipNothing(ml.moves);
    if b.mod == KingsBattle && !b.kbUnlocked && k != King && k != Pawn {
      return;
    }
    var men := MenOf(b, k);
    AddFromAll(b, ml, k, men, capturesOnly);
  }

  method WingIsSafe(b: Board, w: Wing) returns (safe: bool)
    requires b.Coherent()
    ensures safe <==> WaySafe(b.Position(), w)
  {
    hide Attacked;
    var enemy := Opposite(w.color);
    var first, second := Corner(w) + 5, Corner(w) + 6;
    if !w.kingside { first, second := Corner(w) + 2, Corner(w) + 3; }
    var attacked := SquareAttacked(b, first, enemy);
    if attacked { return false; }
    attacked := SquareAttacked(b, second, enemy);
    return !attacked;
  }

  method AddCastlingOn(b: Board, ml: MoveList, w: Wing, needSafe: bool)
    requires b.Coherent() && ml.Valid() && w.color == b.side && (needSafe <==> CheckMatters(b.Position()))
    modifies ml
    ensures ml.Valid() && ml.moves == Clip(old(ml.moves) + CastlingOn(b.Position(), w))
  {
    hide WaySafe, CheckMatters;
    assert ml.moves + [] == ml.moves;
    ghost var at := b.At();
    var c := Corner(w);
    var clear := if w.kingside then b.mailbox[c + 5] == Empty && b.mailbox[c + 6] == Empty
                 else b.mailbox[c + 1] == Empty && b.mailbox[c + 2] == Empty && b.mailbox[c + 3] == Empty;
    assert clear <==> WayClear(at, w);
    if HasRight(b.castling, w) && clear {
      var safe := true;
      if needSafe { safe := WingIsSafe(b, w); }
      if safe { ml.Add(Castling(w)); }
    }
  }

  /** Whether check stands in the way of castling. */
  method NeedsSafety(b: Board) returns (needed: bool)
    requires b.Coherent()
    ensures needed <==> CheckMatters(b.Position())
  {
    needed := true;
    var crowned := if b.side == White then b.heirWhite else b.heirBlack;
    if b.mod == Heir && !(crowned || b.pieces[Ix(b.side), KindCode(Pawn)] == {}) {
      needed := false;
    }
    if b.mod == Truce && b.truceActive { needed := false; }
  }

  method CastlingOpen(b: Board, needed: bool) returns (open: bool)
    requires b.Coherent() && (needed <==> CheckMatters(b.Position()))
    ensures open <==> MayCastle(b.Position())
  {
    hide InCheck, CheckMatters;
    if b.mod == KingsBattle && !b.kbUnlocked { return false; }
    if b.mod == Truce && b.truceActive {
      var kings := b.pieces[Ix(b.side), KindCode(King)];
      if kings != {} && Lsb(kings) in b.frozen { return false; }
    }
    if needed {
      var check := BoardInCheck(b, b.side);
      return !check;
    }
    return true;
  }

  method AddCastlings(b: Board, ml: MoveList)
    requires b.Coherent() && ml.Valid()
    modifies ml
    ensures ml.Valid() && ml.moves == Clip(old(ml.moves) + Castlings(b.Position()))
  {
    hide MayCastle, CastlingOn, CheckMatters, Clip;
    ghost var p, before := b.Position(), ml.moves;
    ClipNothing(before);
    var needed := NeedsSafety(b);
    var open := CastlingOpen(b, needed);
    if open {
      AddCastlingOn(b, ml, Wing(b.side, true), needed);
      AddCastlingOn(b, ml, Wing(b.side, false), needed);
      ClipThree(before, CastlingOn(p, Wing(b.side, true)), CastlingOn(p, Wing(b.side, false)));
    }
  }
}
