/** The moves in the order in which the generator appends them, and what they are. */
module MoveLists {
  import opened Types
  import opened Bitboards
  import opened Position
  import opened Attacks
  import opened Rules

  // ---- Pieces -------------------------------------------------------------------

  /** A man of kind k never takes this one, although it can reach it. */
  predicate Skipped(p: Pos, k: Kind, to: Square)
    requires p.at[to].Man?
  {
    var them := Opposite(p.side);
    || (p.at[to].kind == King && (p.mod != Heir || k == King))
    || (p.mod == SaveQueen && k != Queen && p.at[to].kind == Queen && !OwnHalf(to, them) && p.at[Prison(them)] != Empty)
  }

  function Emission(p: Pos, k: Kind, from: Square, to: Square): seq<Move> {
    if p.at[to] == Empty then [Simple(from, to, k)]
    else if Skipped(p, k, to) then []
    else [Capture(from, to, k, p.at[to].kind)]
  }

  function Emit(p: Pos, k: Kind, from: Square, tos: seq<Square>): seq<Move> {
    if tos == [] then [] else Emission(p, k, from, tos[0]) + Emit(p, k, from, tos[1..])
  }

  function BaseTargets(at: Placement, k: Kind, from: Square): Bitboard { set to: Square | Reaches(at, k, from, to) }

  /** Own men that block their side. */
  function Blockers(p: Pos): Bitboard {
    if p.mod == FriendlyFire then (Occupied(p.at, p.side) - p.ffMoved) + Of(p.at, p.side, King)
    else Occupied(p.at, p.side)
  }

  function HeirForbidden(p: Pos, k: Kind): Bitboard {
    var kings := Of(p.at, Opposite(p.side), King);
    if k == King && p.mod == Heir && kings != {} then KingTargets(Lsb(kings)) + {Lsb(kings)} else {}
  }

  function LockForbidden(p: Pos, k: Kind): Bitboard {
    if k == King && Locked(p) then Of(p.at, Opposite(p.side), King) else {}
  }

  function TruceForbidden(p: Pos): Bitboard { if InTruce(p) then Occupied(p.at, Opposite(p.side)) else {} }

  function Targets(p: Pos, k: Kind, from: Square): Bitboard {
    BaseTargets(p.at, k, from) - Blockers(p) - HeirForbidden(p, k) - LockForbidden(p, k) - TruceForbidden(p)
  }

  /** The men whose taking counts as a capture. */
  function CaptureMask(p: Pos): Bitboard {
    var theirs := Occupied(p.at, Opposite(p.side));
    if p.mod == FriendlyFire then theirs + (Occupied(p.at, p.side) * p.ffMoved - Of(p.at, p.side, King)) else theirs
  }

  function Masked(bb: Bitboard, on: bool, mask: Bitboard): Bitboard { if on then bb * mask else bb }

  /** Save the Queen: the held enemy queen an adjacent escaped queen may take. */
  function HeldTarget(p: Pos, from: Square): Bitboard {
    var them := Opposite(p.side);
    var held := Of(p.at, them, Queen) * Half(p.side);
    if held != {} && Lsb(held) == Prison(them) && KingStep(from, Lsb(held)) then {Lsb(held)} else {}
  }

  function EscapedSlides(p: Pos, from: Square): Bitboard {
    (BaseTargets(p.at, Queen, from) - Occupied(p.at, p.side) - Of(p.at, Opposite(p.side), Queen)) * Half(p.side)
  }

  function EscapedTargets(p: Pos, from: Square, capturesOnly: bool): Bitboard {
    Masked(EscapedSlides(p, from), capturesOnly, Occupied(p.at, Opposite(p.side))) + HeldTarget(p, from)
  }

  function Crossings(p: Pos, from: Square): Bitboard { KingTargets(from) - All(p.at) - Half(p.side) }

  function QueenList(p: Pos, from: Square, capturesOnly: bool): seq<Move> {
    if !OwnHalf(from, p.side) then
      if capturesOnly then [] else Emit(p, Queen, from, Squares(KingTargets(from) - All(p.at)))
    else
      Emit(p, Queen, from, Squares(EscapedTargets(p, from, capturesOnly)))
      + if capturesOnly then [] else Emit(p, Queen, from, Squares(Crossings(p, from)))
  }

  function PieceFrom(p: Pos, k: Kind, from: Square, capturesOnly: bool): seq<Move> {
    if p.mod == SaveQueen && k == Queen then QueenList(p, from, capturesOnly)
    else Emit(p, k, from, Squares(Masked(Targets(p, k, from), capturesOnly, CaptureMask(p))))
  }

  // ---- Pawns --------------------------------------------------------------------

  function PromoKinds(p: Pos, to: Square): seq<Kind> {
    var hasKing := Of(p.at, p.side, King) != {};
    match p.mod
    case Heir =>
      if !hasKing && !HeirPromoted(p, p.side) then [King]
      else [Queen, Rook, Bishop, Knight] + if HeirPromoted(p, p.side) then [] else [King]
    case Succession =>
      var safe := !Attacked(p, to, Opposite(p.side));
      if |Of(p.at, p.side, Pawn)| <= 1 && !hasKing then (if safe then [King] else [])
      else [Rook, Bishop, Knight] + if !hasKing && safe then [King] else []
    case SaveQueen => [Rook, Bishop, Knight]
    case _ => [Queen, Rook, Bishop, Knight]
  }

  function Promotions(from: Square, to: Square, captured: Option<Kind>, kinds: seq<Kind>): seq<Move> {
    if kinds == [] then []
    else [Promotion(from, to, captured, kinds[0])] + Promotions(from, to, captured, kinds[1..])
  }

  /** A pawn arrives on `to`: one move, or one for each promotion. */
  function Arrivals(p: Pos, from: Square, to: Square, captured: Option<Kind>): seq<Move> {
    if Row(from) == Rank7(p.side) then Promotions(from, to, captured, PromoKinds(p, to))
    else [Move(from, to, Pawn, captured, false, false, None)]
  }

  function Pushes(p: Pos, from: Square): seq<Move> {
    var one := from + 8 * Dir(p.side);
    if !(0 <= one < 64) || p.at[one] != Empty then []
    else
      Arrivals(p, from, one, None)
      + (if Row(from) == Rank2(p.side) && p.at[from + 16 * Dir(p.side)] == Empty
         then [Simple(from, from + 16 * Dir(p.side), Pawn)] else [])
  }

  function EnPassant(p: Pos, from: Square, to: Square): seq<Move> {
    var victim := p.at[Sq(Row(from), Col(to))];
    if to == p.ep && victim.Man? && victim.color != p.side
    then [Move(from, to, Pawn, Some(victim.kind), false, true, None)] else []
  }

  /** Captures towards one side: dc is -1 or 1. */
  function Sideways(p: Pos, from: Square, dc: int): seq<Move> {
    var r, c := Row(from) + Dir(p.side), Col(from) + dc;
    if !OnBoard(r, c) || Refused(p, Sq(r, c)) then []
    else
      (if p.at[Sq(r, c)].Man? && MayTake(p, Pawn, Sq(r, c))
       then Arrivals(p, from, Sq(r, c), Some(p.at[Sq(r, c)].kind)) else [])
      + EnPassant(p, from, Sq(r, c))
  }

  function PawnFrom(p: Pos, from: Square, capturesOnly: bool): seq<Move> {
    if p.mod == Mercenary then
      (if capturesOnly then [] else Emit(p, Pawn, from, Squares(KingTargets(from) - All(p.at))))
      + Emit(p, Pawn, from, Squares(KingTargets(from) * Occupied(p.at, Opposite(p.side))))
    else
      (if capturesOnly then [] else Pushes(p, from))
      + if InTruce(p) then [] else Sideways(p, from, -1) + Sideways(p, from, 1)
  }

  // ---- All moves ------------------------------------------------------------------

  function FromOne(p: Pos, k: Kind, from: Square, capturesOnly: bool): seq<Move> {
    if k == Pawn then PawnFrom(p, from, capturesOnly) else PieceFrom(p, k, from, capturesOnly)
  }

  function FromAll(p: Pos, k: Kind, froms: seq<Square>, capturesOnly: bool): seq<Move> {
    if froms == [] then [] else FromOne(p, k, froms[0], capturesOnly) + FromAll(p, k, froms[1..], capturesOnly)
  }

  function Movers(p: Pos, k: Kind): Bitboard { Of(p.at, p.side, k) - if InTruce(p) then p.frozen else {} }

  function OfKind(p: Pos, k: Kind, capturesOnly: bool): seq<Move> {
    if Locked(p) && k != Pawn && k != King then [] else FromAll(p, k, Squares(Movers(p, k)), capturesOnly)
  }

  function CastlingOn(p: Pos, w: Wing): seq<Move> { if MayCastleOn(p, w) then [Castling(w)] else [] }

  function Castlings(p: Pos): seq<Move> {
    if MayCastle(p) then CastlingOn(p, Wing(p.side, true)) + CastlingOn(p, Wing(p.side, false)) else []
  }

  function ByKind(p: Pos, capturesOnly: bool): seq<Move> {
    OfKind(p, Pawn, capturesOnly) + OfKind(p, Knight, capturesOnly) + OfKind(p, Bishop, capturesOnly)
    + OfKind(p, Rook, capturesOnly) + OfKind(p, Queen, capturesOnly) + OfKind(p, King, capturesOnly)
  }

  function PseudoMoves(p: Pos): seq<Move> { ByKind(p, false) + Castlings(p) }

  function PseudoCaptures(p: Pos): seq<Move> { ByKind(p, true) }

  // ---- Membership ---------------------------------------------------------------

  lemma {:induction false} InEmit(p: Pos, k: Kind, from: Square, tos: seq<Square>, m: Move)
    ensures m in Emit(p, k, from, tos) <==> m.to in tos && m in Emission(p, k, from, m.to)
  {
    if tos != [] {
      InEmit(p, k, from, tos[1..], m);
      assert tos == [tos[0]] + tos[1..];
    }
  }

  lemma InEmitted(p: Pos, k: Kind, from: Square, bb: Bitboard, m: Move)
    ensures m in Emit(p, k, from, Squares(bb)) <==> m.to in bb && m in Emission(p, k, from, m.to)
  {
    InEmit(p, k, from, Squares(bb), m);
  }

  lemma {:induction false} InPromotions(from: Square, to: Square, captured: Option<Kind>, kinds: seq<Kind>, m: Move)
    ensures m in Promotions(from, to, captured, kinds) <==>
            m.promo.Some? && m.promo.value in kinds && m == Promotion(from, to, captured, m.promo.value)
  {
    if kinds != [] {
      InPromotions(from, to, captured, kinds[1..], m);
      assert kinds == [kinds[0]] + kinds[1..];
    }
  }

  lemma InArrivals(p: Pos, from: Square, to: Square, captured: Option<Kind>, m: Move)
    ensures m in Arrivals(p, from, to, captured) <==>
            m == Move(from, to, Pawn, captured, false, false, m.promo) && Promotes(p, m)
  {
    InPromotions(from, to, captured, PromoKinds(p, to), m);
    if m.promo.Some? {
      assert m.promo.value in PromoKinds(p, to) <==> MayBecome(p, to, m.promo.value);
    }
  }

  lemma TargetMeaning(p: Pos, k: Kind, from: Square, to: Square)
    requires k != Pawn && !(p.mod == SaveQueen && k == Queen)
    ensures to in Targets(p, k, from) && (p.at[to].Man? ==> !Skipped(p, k, to)) <==>
            && Reaches(p.at, k, from, to)
            && (p.at[to].Man? ==> MayTake(p, k, to))
            && (k == King ==> AwayFromHeir(p, to))
  {
    hide Reaches, KingStep, OwnHalf;
    assert to in Blockers(p) <==> p.at[to].Man? && p.at[to].color == p.side && !MayTake(p, k, to);
    assert k == King ==> (to in HeirForbidden(p, k) <==> !AwayFromHeir(p, to));
    assert to in LockForbidden(p, k) ==> p.at[to].Man? && Skipped(p, k, to);
  }

  lemma InPieceFrom(p: Pos, k: Kind, from: Square, m: Move)
    requires k != Pawn && p.at[from] == Man(p.side, k) && !(p.mod == SaveQueen && k == Queen)
    requires MayMove(p, from) && (Locked(p) ==> k == King)
    ensures m in PieceFrom(p, k, from, false) <==> m.piece == k && m.from == from && PieceMove(p, m)
  {
    hide Emit, Squares, Targets, Skipped, Reaches, AwayFromHeir, MayTake;
    InEmitted(p, k, from, Targets(p, k, from), m);
    TargetMeaning(p, k, from, m.to);
  }

  lemma EscapedMeaning(p: Pos, from: Square, to: Square)
    requires p.mod == SaveQueen && OwnHalf(from, p.side)
    ensures p.at[to] == Empty ==>
            (to in EscapedTargets(p, from, false) || to in Crossings(p, from) <==> QueenEnters(p, from, to))
    ensures p.at[to].Man? ==> to !in Crossings(p, from)
    ensures p.at[to].Man? ==>
            (to in EscapedTargets(p, from, false) && !Skipped(p, Queen, to) <==> QueenTakes(p, from, to))
  {
    hide Reaches, KingStep, OwnHalf;
    assert to in HeldTarget(p, from) <==> HeldQueen(p, to) && KingStep(from, to);
  }

  lemma InQueenList(p: Pos, from: Square, m: Move)
    requires p.mod == SaveQueen && p.at[from] == Man(p.side, Queen)
    ensures m in QueenList(p, from, false) <==> m.piece == Queen && m.from == from && PieceMove(p, m)
  {
    hide Emit, Squares, EscapedTargets, Crossings, QueenTakes, KingStep, OwnHalf, Reaches, Skipped;
    if !OwnHalf(from, p.side) {
      PrisonerStays(p, from, m.to);
      InEmitted(p, Queen, from, KingTargets(from) - All(p.at), m);
    } else {
      EscapedMeaning(p, from, m.to);
      InEmitted(p, Queen, from, EscapedTargets(p, from, false), m);
      InEmitted(p, Queen, from, Crossings(p, from), m);
    }
  }

  lemma PrisonerStays(p: Pos, from: Square, to: Square)
    requires !OwnHalf(from, p.side)
    ensures p.at[to].Man? ==> !QueenTakes(p, from, to)
  {
  }

  lemma InPushes(p: Pos, from: Square, m: Move)
    requires p.at[from] == Man(p.side, Pawn)
    ensures m in Pushes(p, from) <==>
            m.piece == Pawn && m.from == from && !m.castle && (Push(p, m) || DoublePush(p, m))
  {
    var one := from + 8 * Dir(p.side);
    if 0 <= one < 64 {
      InArrivals(p, from, one, None, m);
    }
  }

  lemma StepSideways(c: Color, from: Square, dc: int, to: Square)
    requires dc == -1 || dc == 1
    ensures var row, col := Row(from) + Dir(c), Col(from) + dc;
            PawnStep(c, from, to) && Col(to) == Col(from) + dc <==> OnBoard(row, col) && to == Sq(row, col)
  {
  }

  lemma InSideways(p: Pos, from: Square, dc: int, m: Move)
    requires p.at[from] == Man(p.side, Pawn) && !InTruce(p) && (dc == -1 || dc == 1)
    ensures m in Sideways(p, from, dc) <==>
            m.piece == Pawn && m.from == from && !m.castle && Col(m.to) == Col(from) + dc
            && (PawnTakes(p, m) || TakesEnPassant(p, m))
  {
    hide MayTake, Promotes, Arrivals, PawnStep, Sq;
    StepSideways(p.side, from, dc, m.to);
    var r, c := Row(from) + Dir(p.side), Col(from) + dc;
    if OnBoard(r, c) {
      var to := Sq(r, c);
      if p.at[to].Man? {
        InArrivals(p, from, to, Some(p.at[to].kind), m);
      }
    }
  }

  lemma MercenaryTakes(p: Pos, to: Square)
    requires p.mod == Mercenary && p.at[to].Man?
    ensures MayTake(p, Pawn, to) <==> p.at[to].color != p.side && !Skipped(p, Pawn, to)
  {
  }

  lemma InMercenaryFrom(p: Pos, from: Square, m: Move)
    requires p.mod == Mercenary && p.at[from] == Man(p.side, Pawn)
    ensures m in PawnFrom(p, from, false) <==> m.piece == Pawn && m.from == from && PawnMove(p, m)
  {
    hide Emit, Squares, KingStep, MayTake, Skipped, Pushes, Sideways, Push, DoublePush, PawnTakes, TakesEnPassant;
    if p.at[m.to].Man? { MercenaryTakes(p, m.to); }
    InEmitted(p, Pawn, from, KingTargets(from) - All(p.at), m);
    InEmitted(p, Pawn, from, KingTargets(from) * Occupied(p.at, Opposite(p.side)), m);
  }

  /** A pawn's capture goes one file to the side, and there is none in a truce. */
  lemma TakesAside(p: Pos, m: Move)
    ensures PawnTakes(p, m) || TakesEnPassant(p, m) ==>
            (Col(m.to) == Col(m.from) - 1 || Col(m.to) == Col(m.from) + 1) && !InTruce(p)
  {
  }

  lemma InPawnFrom(p: Pos, from: Square, m: Move)
    requires p.at[from] == Man(p.side, Pawn) && MayMove(p, from)
    ensures m in PawnFrom(p, from, false) <==> m.piece == Pawn && m.from == from && PawnMove(p, m)
  {
    if p.mod == Mercenary {
      InMercenaryFrom(p, from, m);
    } else {
      hide Push, DoublePush, Pushes, Sideways, PawnTakes, TakesEnPassant;
      InPushes(p, from, m);
      TakesAside(p, m);
      if !InTruce(p) {
        InSideways(p, from, -1, m);
        InSideways(p, from, 1, m);
      }
    }
  }

  lemma InFromOne(p: Pos, k: Kind, from: Square, m: Move)
    requires from in Movers(p, k) && (Locked(p) ==> k == King || k == Pawn)
    ensures m in FromOne(p, k, from, false) <==> m.piece == k && m.from == from && (PawnMove(p, m) || PieceMove(p, m))
  {
    if k == Pawn {
      InPawnFrom(p, from, m);
    } else if p.mod == SaveQueen && k == Queen {
      InQueenList(p, from, m);
    } else {
      InPieceFrom(p, k, from, m);
    }
  }

  lemma {:induction false} InFromAll(p: Pos, k: Kind, froms: seq<Square>, m: Move)
    requires forall s :: s in froms ==> s in Movers(p, k)
    requires Locked(p) ==> k == King || k == Pawn
    ensures m in FromAll(p, k, froms, false) <==>
            m.from in froms && m.piece == k && (PawnMove(p, m) || PieceMove(p, m))
  {
    if froms != [] {
      InFromOne(p, k, froms[0], m);
      assert froms == [froms[0]] + froms[1..];
      InFromAll(p, k, froms[1..], m);
    }
  }

  lemma InOfKind(p: Pos, k: Kind, m: Move)
    ensures m in OfKind(p, k, false) <==> m.piece == k && (PawnMove(p, m) || PieceMove(p, m))
  {
    if !(Locked(p) && k != Pawn && k != King) {
      InFromAll(p, k, Squares(Movers(p, k)), m);
    }
  }

  /** The generator is sound and complete: the list holds exactly the moves the rules allow. */
  lemma InPseudoMoves(p: Pos, m: Move)
    ensures m in PseudoMoves(p) <==> Pseudo(p, m)
  {
    hide OfKind, PawnMove, PieceMove;
    InOfKind(p, Pawn, m);
    InOfKind(p, Knight, m);
    InOfKind(p, Bishop, m);
    InOfKind(p, Rook, m);
    InOfKind(p, Queen, m);
    InOfKind(p, King, m);
  }
}
