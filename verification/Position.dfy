/** A position as a plain value: what the mutable board stands for. */
module Position {
  import opened Types

  /** What stands on each of the 64 squares. */
  type Placement = s: seq<Piece> | |s| == 64 witness seq(64, _ => Empty)

  function Bare(): Placement { seq(64, _ => Empty) }

  datatype Pos = Pos(
    at: Placement,
    side: Color,
    castling: Rights,
    ep: SquareOrNone,
    halfmove: int,
    fullmove: int,
    mod: Mod,
    heirWhite: bool,          // that side has promoted a pawn to king
    heirBlack: bool,
    truceActive: bool,
    frozen: Bitboard,         // Truce: squares of pieces that have used their move
    ffMoved: Bitboard,        // Friendly Fire: squares of pieces that have moved
    kbUnlocked: bool,         // King's Battle: phase 2 reached
    kbIdle: nat)              // King's Battle: trailing quiet king moves

  function HeirPromoted(p: Pos, c: Color): bool { if c == White then p.heirWhite else p.heirBlack }

  function Of(at: Placement, c: Color, k: Kind): Bitboard { set s: Square | at[s] == Man(c, k) }

  function Occupied(at: Placement, c: Color): Bitboard { set s: Square | at[s].Man? && at[s].color == c }

  function All(at: Placement): Bitboard { set s: Square | at[s] != Empty }

  /** King's Battle, phase 1: only kings and pawns act. */
  predicate Locked(p: Pos) { p.mod == KingsBattle && !p.kbUnlocked }

  /** A truce is on: no captures, no check, one move a piece. */
  predicate InTruce(p: Pos) { p.mod == Truce && p.truceActive }

  /** Heir: a side is bound by check once it has promoted a king or has no pawn. */
  predicate HeirCheckApplies(p: Pos, c: Color) { HeirPromoted(p, c) || Of(p.at, c, Pawn) == {} }

  /** Save the Queen: the four ranks nearest a side are its own half. */
  predicate OwnHalf(s: Square, c: Color) { if c == White then Row(s) <= 3 else Row(s) >= 4 }

  /** Save the Queen: where a side's queen is held. */
  function Prison(c: Color): Square { if c == White then 59 else 3 }

  function Half(c: Color): Bitboard { set s: Square | OwnHalf(s, c) }
}
