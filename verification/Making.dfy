/** Making a move: the next position, the undo record and the hash, as values. */
module Making {
  import opened Types
  import opened Bitboards
  import opened Position

  // ---- Placement -----------------------------------------------------------

  /** En passant: the captured pawn stands beside the mover, on the file it moves to. */
  function Victim(m: Move): Square { Sq(Row(m.from), Col(m.to)) }

  /** The rook's journey when a king castles to `to`: from, to, and whose rook. */
  function CastlingRook(to: Square): Option<(Square, Square, Color)> {
    if to == 6 then Some((7, 5, White))
    else if to == 2 then Some((0, 3, White))
    else if to == 62 then Some((63, 61, Black))
    else if to == 58 then Some((56, 59, Black))
    else None
  }

  /** Save the Queen: a queen taken outside her own half returns to an empty prison. */
  predicate Reprisons(p: Pos, m: Move) {
    var them := Opposite(p.side);
    && p.mod == SaveQueen && !m.ep && IsCapture(m)
    && p.at[m.to].Man? && p.at[m.to].kind == Queen
    && !OwnHalf(m.to, them) && p.at[Prison(them)] == Empty
  }

  function AfterCapture(p: Pos, m: Move): Placement {
    var them := Opposite(p.side);
    if m.ep then p.at[Victim(m) := Empty]
    else if Reprisons(p, m) then p.at[m.to := Empty][Prison(them) := Man(them, Queen)]
    else if IsCapture(m) then p.at[m.to := Empty]
    else p.at
  }

  function Arrival(p: Pos, m: Move): Piece {
    Man(p.side, if m.promo.Some? then m.promo.value else m.piece)
  }

  function AfterStep(p: Pos, m: Move): Placement {
    AfterCapture(p, m)[m.from := Empty][m.to := Arrival(p, m)]
  }

  function AfterMove(p: Pos, m: Move): Placement {
    var rook := CastlingRook(m.to);
    if m.castle && rook.Some? then
      AfterStep(p, m)[rook.value.0 := Empty][rook.value.1 := Man(rook.value.2, Rook)]
    else AfterStep(p, m)
  }

  // ---- Flags ---------------------------------------------------------------

  /** Follow the moved men in a set of marked squares. */
  function Tracked(marks: Bitboard, m: Move): Bitboard {
    var moved := marks - {m.from} + {m.to};
    var taken := if m.ep then moved - {Victim(m)} else moved;
    var rook := CastlingRook(m.to);
    if m.castle && rook.Some? then taken - {rook.value.0} + {rook.value.1} else taken
  }

  function Without(p: Pos, m: Move, c: Color, home: Square): bool {
    (m.piece == King && p.side == c) || (m.piece == Rook && m.from == home) || m.to == home
  }

  function RightsAfter(p: Pos, m: Move): Rights {
    Rights(p.castling.wk && !Without(p, m, White, 7), p.castling.wq && !Without(p, m, White, 0),
           p.castling.bk && !Without(p, m, Black, 63), p.castling.bq && !Without(p, m, Black, 56))
  }

  predicate IsDoublePush(m: Move) { m.piece == Pawn && (m.to - m.from == 16 || m.to - m.from == -16) }

  function EpAfter(p: Pos, m: Move): SquareOrNone {
    if p.mod != Mercenary && IsDoublePush(m) then Sq((Row(m.from) + Row(m.to)) / 2, Col(m.from)) else NO_SQUARE
  }

  /** The piece taken and the square it is taken from. */
  function Taken(p: Pos, m: Move): (Piece, SquareOrNone) {
    if m.ep then (p.at[Victim(m)], Victim(m))
    else if IsCapture(m) then (p.at[m.to], m.to)
    else (Empty, NO_SQUARE)
  }

  /** King's Battle: a king that takes a pawn opens phase 2 and moves again. */
  predicate KingsKill(p: Pos, m: Move) {
    Locked(p) && m.piece == King && IsCapture(m) && Taken(p, m).0.Man? && Taken(p, m).0.kind == Pawn
  }

  predicate KbPromotes(m: Move) { m.piece == Pawn && m.promo.Some? }

  function IdleAfter(p: Pos, m: Move): nat {
    if !Locked(p) then p.kbIdle
    else if !KingsKill(p, m) && !KbPromotes(m) && m.piece == King && !IsCapture(m) then
      (if p.kbIdle < 255 then p.kbIdle + 1 else p.kbIdle)
    else 0
  }

  predicate UnlockedAfter(p: Pos, m: Move) {
    p.kbUnlocked || (p.mod == KingsBattle &&
      (KingsKill(p, m) || KbPromotes(m) || (m.piece == King && !IsCapture(m) && IdleAfter(p, m) >= 6)))
  }

  predicate CrownsHeir(p: Pos, m: Move, c: Color) {
    p.side == c && m.promo == Some(King) && (p.mod == Heir || p.mod == Succession)
  }

  function HalfmoveAfter(p: Pos, m: Move): int { if m.piece == Pawn || IsCapture(m) then 0 else p.halfmove + 1 }

  function FullmoveAfter(p: Pos): int { if p.side == Black then p.fullmove + 1 else p.fullmove }

  function FrozenAfter(p: Pos, m: Move): Bitboard { if InTruce(p) then Tracked(p.frozen, m) else p.frozen }

  function MovedAfter(p: Pos, m: Move): Bitboard { if p.mod == FriendlyFire then Tracked(p.ffMoved, m) else p.ffMoved }

  function SideAfter(p: Pos, m: Move): Color { if KingsKill(p, m) then p.side else Opposite(p.side) }

  function Next(p: Pos, m: Move): Pos {
    Pos(AfterMove(p, m),
        SideAfter(p, m),
        RightsAfter(p, m),
        EpAfter(p, m),
        HalfmoveAfter(p, m),
        FullmoveAfter(p),
        p.mod,
        p.heirWhite || CrownsHeir(p, m, White),
        p.heirBlack || CrownsHeir(p, m, Black),
        p.truceActive,
        FrozenAfter(p, m),
        MovedAfter(p, m),
        UnlockedAfter(p, m),
        IdleAfter(p, m))
  }

  // ---- Hash ------------------------------------------------------------------

  /** The random keys, left uninterpreted. */
  datatype Keys = Keys(piece: (Color, Kind, Square) -> Word, side: Word, castle: Rights -> Word,
                       ep: Square -> Word, heir: Color -> Word, truce: Word, unlocked: Word)

  const COLORS: seq<Color> := [White, Black]
  const KINDS: seq<Kind> := [Pawn, Knight, Bishop, Rook, Queen, King]

  function HashSquares(keys: Keys, c: Color, k: Kind, sqs: seq<Square>, h: Word): Word {
    if sqs == [] then h else HashSquares(keys, c, k, sqs[1..], Xor(h, keys.piece(c, k, sqs[0])))
  }

  function HashKinds(keys: Keys, at: Placement, c: Color, kinds: seq<Kind>, h: Word): Word {
    if kinds == [] then h
    else HashKinds(keys, at, c, kinds[1..], HashSquares(keys, c, kinds[0], Squares(Of(at, c, kinds[0])), h))
  }

  function HashColors(keys: Keys, at: Placement, colors: seq<Color>, h: Word): Word {
    if colors == [] then h else HashColors(keys, at, colors[1..], HashKinds(keys, at, colors[0], KINDS, h))
  }

  function Mask(on: bool, key: Word): Word { if on then key else {} }

  function EpKey(keys: Keys, ep: SquareOrNone): Word { if ep == NO_SQUARE then {} else keys.ep(ep) }

  function HashFlags(keys: Keys, p: Pos, h: Word): Word {
    Xor(Xor(Xor(Xor(Xor(Xor(Xor(h, Mask(p.side == Black, keys.side)), keys.castle(p.castling)),
      EpKey(keys, p.ep)), Mask(p.heirWhite, keys.heir(White))), Mask(p.heirBlack, keys.heir(Black))),
      Mask(p.truceActive, keys.truce)), Mask(p.kbUnlocked, keys.unlocked))
  }

  function Hash(keys: Keys, p: Pos): Word { HashFlags(keys, p, HashColors(keys, p.at, COLORS, {})) }

  /** Passing the turn, as null-move search does. */
  function NullMove(p: Pos): Pos { p.(side := Opposite(p.side), ep := NO_SQUARE) }

  /** The constant-time hash update of a null move equals a fresh computation. */
  lemma NullMoveHash(keys: Keys, p: Pos)
    ensures Hash(keys, NullMove(p)) == Xor(Xor(Hash(keys, p), keys.side), EpKey(keys, p.ep))
  {
    var h := HashColors(keys, p.at, COLORS, {});
    hide HashColors;
    var passed, flipped := HashFlags(keys, NullMove(p), h),
        Xor(Xor(HashFlags(keys, p, h), keys.side), EpKey(keys, p.ep));
    forall bit: Square ensures bit in passed <==> bit in flipped {
    }
  }

  // ---- Undo ------------------------------------------------------------------

  datatype Undo = Undo(move: Move, captured: Piece, capturedSq: SquareOrNone, castling: Rights, ep: SquareOrNone,
                       halfmove: int, hash: Word, heirWhite: bool, heirBlack: bool, truceActive: bool,
                       frozen: Bitboard, ffMoved: Bitboard, kbUnlocked: bool, kbIdle: nat, kbBonus: bool,
                       reprisoned: bool, reprisonSq: SquareOrNone)

  /** Everything the engine can read: the position, its stored hash and the undo stack below `ply`. */
  datatype State = State(pos: Pos, hash: Word, stack: seq<Undo>)

  function Record(st: State, m: Move): Undo {
    var p := st.pos;
    Undo(m, Taken(p, m).0, Taken(p, m).1, p.castling, p.ep, p.halfmove, st.hash, p.heirWhite, p.heirBlack,
         p.truceActive, p.frozen, p.ffMoved, p.kbUnlocked, p.kbIdle, KingsKill(p, m),
         Reprisons(p, m), if Reprisons(p, m) then Prison(Opposite(p.side)) else NO_SQUARE)
  }

  function Make(keys: Keys, st: State, m: Move): State {
    State(Next(st.pos, m), Hash(keys, Next(st.pos, m)), st.stack + [Record(st, m)])
  }

  // ---- Moves that describe the position ----------------------------------------

  predicate KingAndRookHome(p: Pos, c: Color, king: Square, rook: Square) {
    p.at[king] == Man(c, King) && p.at[rook] == Man(c, Rook)
  }

  /** A castling move: king and rook at home, the squares they land on empty. */
  predicate CastleFits(p: Pos, m: Move) {
    var rook := CastlingRook(m.to);
    && rook.Some? && rook.value.2 == p.side
    && m.from == (if p.side == White then 4 else 60)
    && KingAndRookHome(p, p.side, m.from, rook.value.0)
    && p.at[m.to] == Empty && p.at[rook.value.1] == Empty
  }

  /** The move describes the position: the mover is on `from`, what it claims to capture is
      where it says, and a square it enters quietly is empty. */
  predicate Fits(p: Pos, m: Move) {
    && m.from != m.to
    && p.at[m.from] == Man(p.side, m.piece)
    && (m.castle ==> !m.ep && !IsCapture(m) && m.piece == King && CastleFits(p, m))
    && (m.promo.Some? ==> m.piece == Pawn)
    && (if m.ep then
          && m.piece == Pawn && m.promo.None?
          && Row(m.from) != Row(m.to) && Col(m.from) != Col(m.to)
          && p.at[m.to] == Empty
          && IsCapture(m) && p.at[Victim(m)] == Man(Opposite(p.side), m.captured.value)
        else if IsCapture(m) then p.at[m.to].Man? && p.at[m.to].kind == m.captured.value
        else p.at[m.to] == Empty)
  }

  // ---- Unmake --------------------------------------------------------------------

  /** Lift the mover back to where it came from. */
  function LiftMover(at: Placement, us: Color, u: Undo): Placement {
    at[u.move.to := Empty][u.move.from := Man(us, u.move.piece)]
  }

  function FreePrison(at: Placement, u: Undo): Placement {
    if u.reprisoned && u.reprisonSq != NO_SQUARE then at[u.reprisonSq := Empty] else at
  }

  function ReturnCaptured(at: Placement, u: Undo): Placement {
    if u.captured != Empty && u.capturedSq != NO_SQUARE then at[u.capturedSq := u.captured] else at
  }

  function ReturnRook(at: Placement, u: Undo): Placement {
    var rook := CastlingRook(u.move.to);
    if u.move.castle && rook.Some? then at[rook.value.1 := Empty][rook.value.0 := Man(rook.value.2, Rook)] else at
  }

  function PlacementBefore(at: Placement, us: Color, u: Undo): Placement {
    ReturnRook(ReturnCaptured(FreePrison(LiftMover(at, us, u), u), u), u)
  }

  function MoverOf(p: Pos, u: Undo): Color { if u.kbBonus then p.side else Opposite(p.side) }

  /** The saved flags and clocks around a placement. */
  function Restored(p: Pos, at: Placement, us: Color, u: Undo): Pos {
    Pos(at, us, u.castling, u.ep, u.halfmove, if us == Black then p.fullmove - 1 else p.fullmove, p.mod,
        u.heirWhite, u.heirBlack, u.truceActive, u.frozen, u.ffMoved, u.kbUnlocked, u.kbIdle)
  }

  /** Pop the undo stack. */
  function Unmake(st: State): State
    requires st.stack != []
  {
    var u := st.stack[|st.stack| - 1];
    var us := MoverOf(st.pos, u);
    State(Restored(st.pos, PlacementBefore(st.pos.at, us, u), us, u), u.hash, st.stack[..|st.stack| - 1])
  }

  lemma LastRecord(keys: Keys, st: State, m: Move)
    ensures var u := Record(st, m);
            && u.move == m && MoverOf(Next(st.pos, m), u) == st.pos.side
            && Make(keys, st, m).pos.at == AfterMove(st.pos, m)
            && Make(keys, st, m).stack[|st.stack|] == u
            && u.kbBonus == (Next(st.pos, m).side == st.pos.side)
  {
  }

  lemma PlacementRestored(st: State, m: Move)
    requires Fits(st.pos, m)
    ensures PlacementBefore(AfterMove(st.pos, m), st.pos.side, Record(st, m)) == st.pos.at
  {
    var p, u := st.pos, Record(st, m);
    var a := AfterMove(p, m);
    forall s: Square ensures PlacementBefore(a, p.side, u)[s] == p.at[s] {
    }
  }

  /** Unmaking a move that describes the position restores everything, whatever the mod: placement,
      rights, clocks, marks, phase, turn, hash and the undo stack. */
  lemma UnmakeMake(keys: Keys, st: State, m: Move)
    requires Fits(st.pos, m)
    ensures Unmake(Make(keys, st, m)) == st
  {
    hide PlacementBefore, Fits, AfterMove;
    PlacementRestored(st, m);
    assert (st.stack + [Record(st, m)])[..|st.stack|] == st.stack;
  }
}
