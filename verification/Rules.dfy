/** The rules of movement of the eight mods, as one predicate on a position and a move.
    These are the pseudo-legal moves: king safety is judged afterwards. */
module Rules {
  import opened Types
  import opened Bitboards
  import opened Position
  import opened Attacks

  function Rank2(c: Color): int { if c == White then 1 else 6 }

  function Rank7(c: Color): int { if c == White then 6 else 1 }

  /** An ordinary move: no castling, en passant or promotion. */
  predicate Plain(m: Move) { !m.castle && !m.ep && m.promo.None? }

  /** A man of kind k (not a pawn) gets from one square to the other on this board. */
  predicate Reaches(at: Placement, k: Kind, from: Square, to: Square) {
    match k
    case Pawn => false
    case Knight => KnightStep(from, to)
    case Bishop => BishopReach(from, to, All(at))
    case Rook => RookReach(from, to, All(at))
    case Queen => BishopReach(from, to, All(at)) || RookReach(from, to, All(at))
    case King => KingStep(from, to)
  }

  /** Save the Queen: a queen held outside her own half, while her prison is taken, is protected. */
  predicate ProtectedPrisoner(p: Pos, to: Square) {
    var them := Opposite(p.side);
    p.mod == SaveQueen && p.at[to] == Man(them, Queen) && !OwnHalf(to, them) && p.at[Prison(them)] != Empty
  }

  /** A man of kind k of the side to move may take what stands on `to`. */
  predicate MayTake(p: Pos, k: Kind, to: Square)
    requires p.at[to].Man?
  {
    if p.at[to].color == p.side then
      p.mod == FriendlyFire && to in p.ffMoved && p.at[to].kind != King
    else
      && !InTruce(p)
      && (p.at[to].kind == King ==> p.mod == Heir && k != King)
      && !ProtectedPrisoner(p, to)
  }

  /** The captured field tells what stands on the target, and that may be taken. */
  predicate EntersOrTakes(p: Pos, m: Move) {
    if p.at[m.to] == Empty then m.captured.None?
    else MayTake(p, m.piece, m.to) && m.captured == Some(p.at[m.to].kind)
  }

  /** Heir: a king keeps away from the other king. */
  predicate AwayFromHeir(p: Pos, to: Square) {
    var kings := Of(p.at, Opposite(p.side), King);
    p.mod == Heir && kings != {} ==> !KingStep(Lsb(kings), to) && to != Lsb(kings)
  }

  /** A man that has used its one move of the truce stays put. */
  predicate MayMove(p: Pos, from: Square) { InTruce(p) ==> from !in p.frozen }

  // ---- Save the Queen: how queens move ---------------------------------------

  /** The enemy queen whose capture on her own prison square ends her. */
  predicate HeldQueen(p: Pos, to: Square) {
    var them := Opposite(p.side);
    var held := Of(p.at, them, Queen) * Half(p.side);
    held != {} && to == Lsb(held) && to == Prison(them)
  }

  predicate QueenEnters(p: Pos, from: Square, to: Square) {
    if !OwnHalf(from, p.side) || !OwnHalf(to, p.side) then KingStep(from, to)
    else Reaches(p.at, Queen, from, to)
  }

  predicate QueenTakes(p: Pos, from: Square, to: Square)
    requires p.at[to].Man?
  {
    && OwnHalf(from, p.side) && OwnHalf(to, p.side)
    && p.at[to].color != p.side && p.at[to].kind != King
    && if p.at[to].kind == Queen then HeldQueen(p, to) && KingStep(from, to)
       else Reaches(p.at, Queen, from, to)
  }

  predicate QueenMove(p: Pos, m: Move) {
    if p.at[m.to] == Empty then m.captured.None? && QueenEnters(p, m.from, m.to)
    else QueenTakes(p, m.from, m.to) && m.captured == Some(p.at[m.to].kind)
  }

  // ---- Pieces -------------------------------------------------------------------

  predicate PieceMove(p: Pos, m: Move) {
    && Plain(m) && m.piece != Pawn
    && p.at[m.from] == Man(p.side, m.piece)
    && MayMove(p, m.from)
    && (Locked(p) ==> m.piece == King)
    && if p.mod == SaveQueen && m.piece == Queen then QueenMove(p, m)
       else && Reaches(p.at, m.piece, m.from, m.to)
            && EntersOrTakes(p, m)
            && (m.piece == King ==> AwayFromHeir(p, m.to))
  }

  // ---- Pawns --------------------------------------------------------------------

  /** What a pawn may become on `to`. */
  predicate MayBecome(p: Pos, to: Square, k: Kind) {
    var hasKing := Of(p.at, p.side, King) != {};
    match p.mod
    case Heir =>
      if !hasKing && !HeirPromoted(p, p.side) then k == King
      else k in {Queen, Rook, Bishop, Knight} || (k == King && !HeirPromoted(p, p.side))
    case Succession =>
      var safe := !Attacked(p, to, Opposite(p.side));
      if |Of(p.at, p.side, Pawn)| <= 1 && !hasKing then k == King && safe
      else k in {Rook, Bishop, Knight} || (k == King && !hasKing && safe)
    case SaveQueen => k in {Rook, Bishop, Knight}
    case _ => k in {Queen, Rook, Bishop, Knight}
  }

  /** A pawn leaving its seventh rank promotes; no other does. */
  predicate Promotes(p: Pos, m: Move) {
    if Row(m.from) == Rank7(p.side) then m.promo.Some? && MayBecome(p, m.to, m.promo.value)
    else m.promo.None?
  }

  predicate Push(p: Pos, m: Move) {
    && !m.ep && m.captured.None? && Promotes(p, m)
    && m.to == m.from + 8 * Dir(p.side) && p.at[m.to] == Empty
  }

  predicate DoublePush(p: Pos, m: Move) {
    && Plain(m) && m.captured.None?
    && Row(m.from) == Rank2(p.side)
    && m.to == m.from + 16 * Dir(p.side) && p.at[m.to] == Empty && p.at[m.from + 8 * Dir(p.side)] == Empty
  }

  predicate PawnTakes(p: Pos, m: Move) {
    && !m.ep && Promotes(p, m) && PawnStep(p.side, m.from, m.to)
    && p.at[m.to].Man? && MayTake(p, Pawn, m.to) && m.captured == Some(p.at[m.to].kind)
  }

  /** An enemy man a pawn may not take; no en passant goes past it either. */
  predicate Refused(p: Pos, to: Square) {
    p.at[to].Man? && p.at[to].color != p.side && !MayTake(p, Pawn, to)
  }

  predicate TakesEnPassant(p: Pos, m: Move) {
    var victim := p.at[Sq(Row(m.from), Col(m.to))];
    && m.ep && m.promo.None? && !InTruce(p)
    && m.to == p.ep && PawnStep(p.side, m.from, m.to) && !Refused(p, m.to)
    && victim.Man? && victim.color != p.side && m.captured == Some(victim.kind)
  }

  predicate PawnMove(p: Pos, m: Move) {
    && !m.castle && m.piece == Pawn
    && p.at[m.from] == Man(p.side, Pawn)
    && MayMove(p, m.from)
    && if p.mod == Mercenary then Plain(m) && KingStep(m.from, m.to) && EntersOrTakes(p, m)
       else Push(p, m) || DoublePush(p, m) || PawnTakes(p, m) || TakesEnPassant(p, m)
  }

  // ---- Castling -------------------------------------------------------------------

  datatype Wing = Wing(color: Color, kingside: bool)

  function Corner(w: Wing): Square { if w.color == White then 0 else 56 }

  function KingHome(c: Color): Square { if c == White then 4 else 60 }

  function KingLands(w: Wing): Square { Corner(w) + if w.kingside then 6 else 2 }

  predicate HasRight(r: Rights, w: Wing) {
    if w.color == White then (if w.kingside then r.wk else r.wq) else (if w.kingside then r.bk else r.bq)
  }

  predicate WayClear(at: Placement, w: Wing) {
    if w.kingside then at[Corner(w) + 5] == Empty && at[Corner(w) + 6] == Empty
    else at[Corner(w) + 1] == Empty && at[Corner(w) + 2] == Empty && at[Corner(w) + 3] == Empty
  }

  predicate WaySafe(p: Pos, w: Wing) {
    if w.kingside then !Attacked(p, Corner(w) + 5, Opposite(w.color)) && !Attacked(p, Corner(w) + 6, Opposite(w.color))
    else !Attacked(p, Corner(w) + 2, Opposite(w.color)) && !Attacked(p, Corner(w) + 3, Opposite(w.color))
  }

  /** Check matters to castling except in a truce and before Heir's check rules apply. */
  predicate CheckMatters(p: Pos) {
    (p.mod == Heir ==> HeirCheckApplies(p, p.side)) && !InTruce(p)
  }

  predicate KingFrozen(p: Pos) {
    var kings := Of(p.at, p.side, King);
    InTruce(p) && kings != {} && Lsb(kings) in p.frozen
  }

  predicate MayCastle(p: Pos) {
    !Locked(p) && !KingFrozen(p) && (CheckMatters(p) ==> !InCheck(p, p.side))
  }

  predicate MayCastleOn(p: Pos, w: Wing) {
    w.color == p.side && HasRight(p.castling, w) && WayClear(p.at, w) && (CheckMatters(p) ==> WaySafe(p, w))
  }

  function Castling(w: Wing): Move {
    Move(KingHome(w.color), KingLands(w), King, None, true, false, None)
  }

  predicate CastlesOn(p: Pos, m: Move, w: Wing) { MayCastleOn(p, w) && m == Castling(w) }

  predicate CastleMove(p: Pos, m: Move) {
    MayCastle(p) && (CastlesOn(p, m, Wing(p.side, true)) || CastlesOn(p, m, Wing(p.side, false)))
  }

  // ---- All moves ------------------------------------------------------------------

  predicate Pseudo(p: Pos, m: Move) { PawnMove(p, m) || PieceMove(p, m) || CastleMove(p, m) }
}
