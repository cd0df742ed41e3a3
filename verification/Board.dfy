/** The mutable board: a mailbox, twelve piece bitboards, two occupancies and their union, all
    describing one placement, with a stored hash and an undo stack. */
module Boards {
  import opened Types
  import opened Bitboards
  import opened Position
  import opened Making

  const MAX_HISTORY := 512

  function Ix(c: Color): (i: int)
    ensures 0 <= i < 2
  { if c == White then 0 else 1 }

  /** The bitboards of a placement after one square is overwritten. */
  lemma BitboardsAfter(at: Placement, sq: Square, x: Piece)
    ensures forall c, k :: Of(at[sq := x], c, k) == Of(at, c, k) - {sq} + (if x == Man(c, k) then {sq} else {})
    ensures forall c ::
              Occupied(at[sq := x], c) == Occupied(at, c) - {sq} + (if x.Man? && x.color == c then {sq} else {})
    ensures All(at[sq := x]) == All(at) - {sq} + (if x != Empty then {sq} else {})
  {
  }

  function EmptyPosition(mod: Mod): Pos {
    Pos(Bare(), White, Rights(false, false, false, false), NO_SQUARE, 0, 0, mod,
        false, false, false, {}, {}, false, 0)
  }

  function EmptyUndo(): Undo {
    Undo(Simple(0, 0, Pawn), Empty, NO_SQUARE, Rights(false, false, false, false), NO_SQUARE, 0, {}, false, false,
         false, {}, {}, false, 0, false, false, NO_SQUARE)
  }

  lemma XorNothing()
    ensures forall h: Word {:trigger Xor(h, {})} :: Xor(h, {}) == h
  {
  }

  ghost function KindsBelow(at: Placement, c: Color, n: int): Bitboard {
    set s: Square | at[s].Man? && at[s].color == c && KindCode(at[s].kind) < n
  }

  lemma KindsGrow(at: Placement, n: int)
    requires 0 <= n < 6
    ensures KindCode(KINDS[n]) == n
    ensures forall c :: KindsBelow(at, c, n + 1) == KindsBelow(at, c, n) + Of(at, c, KINDS[n])
  {
  }

  lemma KindsAll(at: Placement)
    ensures forall c :: KindsBelow(at, c, 6) == Occupied(at, c)
    ensures All(at) == Occupied(at, White) + Occupied(at, Black)
  {
  }

  class Board {
    const keys: Keys
    const mailbox: array<Piece>
    const pieces: array2<Bitboard>
    const occupied: array<Bitboard>
    const history: array<Undo>
    var all: Bitboard
    var side: Color
    var castling: Rights
    var ep: SquareOrNone
    var halfmove: int
    var fullmove: int
    var mod: Mod
    var heirWhite: bool
    var heirBlack: bool
    var truceActive: bool
    var frozen: Bitboard
    var ffMoved: Bitboard
    var kbUnlocked: bool
    var kbIdle: nat
    var hash: Word
    var ply: nat

    ghost predicate Shape() {
      && mailbox.Length == 64 && occupied.Length == 2 && history.Length == MAX_HISTORY
      && pieces.Length0 == 2 && pieces.Length1 == 6
      && mailbox as object != occupied as object && mailbox as object != history as object
      && occupied as object != history as object
    }

    function At(): Placement
      requires Shape()
      reads mailbox
    {
      mailbox[..]
    }

    /** Every view describes the placement held in the mailbox. */
    ghost predicate Coherent()
      reads this`all, mailbox, pieces, occupied
    {
      && Shape()
      && (forall c, k :: pieces[Ix(c), KindCode(k)] == Of(At(), c, k))
      && (forall c :: occupied[Ix(c)] == Occupied(At(), c))
      && all == All(At())
    }

    function Position(): Pos
      requires Shape()
      reads this, mailbox
    {
      Pos(At(), side, castling, ep, halfmove, fullmove, mod, heirWhite, heirBlack, truceActive, frozen, ffMoved,
          kbUnlocked, kbIdle)
    }

    ghost predicate Valid()
      reads this`all, this`ply, mailbox, pieces, occupied
    {
      Shape() && Coherent() && ply <= MAX_HISTORY
    }

    /** All that can be read from the board; undo slots at or above `ply` are dead. */
    function Value(): State
      requires Valid()
      reads this, mailbox, pieces, occupied, history
    {
      State(Position(), hash, history[..ply])
    }

    // ---- Primitives ----------------------------------------------------------

    method Place(sq: Square, c: Color, k: Kind)
      requires Coherent() && mailbox[sq] == Empty
      modifies mailbox, pieces, occupied, this`all
      ensures Coherent() && At() == old(At())[sq := Man(c, k)]
    {
      BitboardsAfter(At(), sq, Man(c, k));
      mailbox[sq] := Man(c, k);
      pieces[Ix(c), KindCode(k)] := pieces[Ix(c), KindCode(k)] + {sq};
      occupied[Ix(c)] := occupied[Ix(c)] + {sq};
      all := all + {sq};
      assert At() == old(At())[sq := Man(c, k)];
    }

    method Remove(sq: Square)
      requires Coherent()
      modifies mailbox, pieces, occupied, this`all
      ensures Coherent() && At() == old(At())[sq := Empty]
    {
      var p := mailbox[sq];
      if p == Empty {
        assert At() == At()[sq := Empty];
        return;
      }
      BitboardsAfter(At(), sq, Empty);
      pieces[Ix(p.color), KindCode(p.kind)] := pieces[Ix(p.color), KindCode(p.kind)] - {sq};
      occupied[Ix(p.color)] := occupied[Ix(p.color)] - {sq};
      all := all - {sq};
      mailbox[sq] := Empty;
      assert At() == old(At())[sq := Empty];
    }

    /** A board with nothing on it. */
    constructor (keys: Keys, mod: Mod)
      ensures Valid() && ply == 0 && Value() == State(EmptyPosition(mod), {}, [])
      ensures fresh(mailbox) && fresh(pieces) && fresh(occupied) && fresh(history) && this.keys == keys
    {
      this.keys := keys;
      mailbox := new Piece[64](_ => Empty);
      pieces := new Bitboard[2, 6]((_, _) => {});
      occupied := new Bitboard[2](_ => {});
      history := new Undo[MAX_HISTORY](_ => EmptyUndo());
      all, hash, ply := {}, {}, 0;
      side, castling, ep, halfmove, fullmove := White, Rights(false, false, false, false), NO_SQUARE, 0, 0;
      this.mod, heirWhite, heirBlack, truceActive, frozen, ffMoved := mod, false, false, false, {}, {};
      kbUnlocked, kbIdle := false, 0;
      new;
      assert At() == EmptyPosition(mod).at;
    }

    method ClearMen()
      requires Shape()
      modifies mailbox, pieces, occupied, this`all
      ensures Coherent() && At() == EmptyPosition(Classic).at
    {
      forall i, j | 0 <= i < 2 && 0 <= j < 6 { pieces[i, j] := {}; }
      occupied[0], occupied[1], all := {}, {}, {};
      for sq := 0 to 64
        invariant forall s :: 0 <= s < sq ==> mailbox[s] == Empty
        invariant forall i, j :: 0 <= i < 2 && 0 <= j < 6 ==> pieces[i, j] == {}
        invariant occupied[0] == {} && occupied[1] == {} && all == {}
      {
        mailbox[sq] := Empty;
      }
    }

    method ClearRights()
      modifies this`side, this`castling, this`ep, this`halfmove, this`fullmove, this`hash, this`ply
      ensures side == White && castling == Rights(false, false, false, false) && ep == NO_SQUARE
      ensures halfmove == 0 && fullmove == 0 && hash == {} && ply == 0
    {
      side, castling, ep := White, Rights(false, false, false, false), NO_SQUARE;
      halfmove, fullmove, hash, ply := 0, 0, {}, 0;
    }

    method ClearModState()
      modifies this`mod, this`heirWhite, this`heirBlack, this`truceActive, this`frozen, this`ffMoved,
               this`kbUnlocked, this`kbIdle
      ensures mod == Classic && !heirWhite && !heirBlack && !truceActive && frozen == {} && ffMoved == {}
      ensures !kbUnlocked && kbIdle == 0
    {
      mod, heirWhite, heirBlack, truceActive := Classic, false, false, false;
      frozen, ffMoved, kbUnlocked, kbIdle := {}, {}, false, 0;
    }

    /** Empty the board. */
    method Clear()
      requires Shape()
      modifies this, mailbox, pieces, occupied
      ensures Valid() && Value() == State(EmptyPosition(Classic), {}, [])
    {
      hide Coherent;
      ClearMen();
      ClearRights();
      ClearModState();
    }

    /** A copy that shares nothing with the original. */
    constructor Copy(b: Board)
      requires b.Valid()
      ensures Valid() && Value() == b.Value() && keys == b.keys
      ensures fresh(mailbox) && fresh(pieces) && fresh(occupied) && fresh(history)
    {
      keys := b.keys;
      mailbox := new Piece[64](i requires 0 <= i < 64 && b.Shape() reads b.mailbox => b.mailbox[i]);
      pieces := new Bitboard[2, 6](
        (i, j) requires 0 <= i < 2 && 0 <= j < 6 && b.Shape() reads b.pieces => b.pieces[i, j]);
      occupied := new Bitboard[2](i requires 0 <= i < 2 && b.Shape() reads b.occupied => b.occupied[i]);
      history := new Undo[MAX_HISTORY](i requires 0 <= i < MAX_HISTORY && b.Shape() reads b.history => b.history[i]);
      all, hash, ply := b.all, b.hash, b.ply;
      side, castling, ep, halfmove, fullmove := b.side, b.castling, b.ep, b.halfmove, b.fullmove;
      mod, heirWhite, heirBlack, truceActive := b.mod, b.heirWhite, b.heirBlack, b.truceActive;
      frozen, ffMoved, kbUnlocked, kbIdle := b.frozen, b.ffMoved, b.kbUnlocked, b.kbIdle;
      new;
      assert At() == b.At();
      assert history[..ply] == b.history[..ply];
    }

    // ---- Hash ------------------------------------------------------------------

    method HashOfSquares(c: Color, k: Kind, bb: Bitboard, h0: Word) returns (h: Word)
      ensures h == HashSquares(keys, c, k, Squares(bb), h0)
    {
      h := h0;
      var rest := bb;
      while rest != {}
        invariant HashSquares(keys, c, k, Squares(rest), h) == HashSquares(keys, c, k, Squares(bb), h0)
      {
        var sq;
        sq, rest := PopLsb(rest);
        h := Xor(h, keys.piece(c, k, sq));
      }
    }

    method HashOfColor(c: Color, h0: Word) returns (h: Word)
      requires Coherent()
      ensures h == HashKinds(keys, At(), c, KINDS, h0)
    {
      h := h0;
      for t := 0 to |KINDS|
        invariant HashKinds(keys, At(), c, KINDS[t..], h) == HashKinds(keys, At(), c, KINDS, h0)
      {
        assert KINDS[t..][1..] == KINDS[t + 1..];
        h := HashOfSquares(c, KINDS[t], pieces[Ix(c), KindCode(KINDS[t])], h);
      }
    }

    method HashOfMen() returns (h: Word)
      requires Coherent()
      ensures h == HashColors(keys, At(), COLORS, {})
    {
      h := {};
      for c := 0 to |COLORS|
        invariant HashColors(keys, At(), COLORS[c..], h) == HashColors(keys, At(), COLORS, {})
      {
        assert COLORS[c..][1..] == COLORS[c + 1..];
        h := HashOfColor(COLORS[c], h);
      }
    }

    method ZobristCompute() returns (h: Word)
      requires Coherent()
      ensures h == Hash(keys, Position())
    {
      h := HashOfMen();
      XorNothing();
      if side == Black { h := Xor(h, keys.side); }
      h := Xor(h, keys.castle(castling));
      if ep != NO_SQUARE { h := Xor(h, keys.ep(ep)); }
      if heirWhite { h := Xor(h, keys.heir(White)); }
      if heirBlack { h := Xor(h, keys.heir(Black)); }
      if truceActive { h := Xor(h, keys.truce); }
      if kbUnlocked { h := Xor(h, keys.unlocked); }
    }

    /** Recompute everything derived from a coherent board. */
    method Rehash()
      requires Valid()
      modifies occupied, this`all, this`hash
      ensures Valid() && hash == Hash(keys, Position())
    {
      Refresh();
    }

    /** Rebuild the occupancies and the hash from the piece bitboards. */
    method Refresh()
      requires Shape()
      requires forall c, k :: pieces[Ix(c), KindCode(k)] == Of(At(), c, k)
      modifies occupied, this`all, this`hash
      ensures Coherent() && hash == Hash(keys, Position())
    {
      occupied[0], occupied[1] := {}, {};
      for t := 0 to 6
        invariant occupied[0] == KindsBelow(At(), White, t) && occupied[1] == KindsBelow(At(), Black, t)
      {
        KindsGrow(At(), t);
        assert pieces[Ix(White), KindCode(KINDS[t])] == Of(At(), White, KINDS[t]);
        assert pieces[Ix(Black), KindCode(KINDS[t])] == Of(At(), Black, KINDS[t]);
        occupied[0] := occupied[0] + pieces[0, t];
        occupied[1] := occupied[1] + pieces[1, t];
      }
      KindsAll(At());
      all := occupied[0] + occupied[1];
      hash := ZobristCompute();
    }

    // ---- Make --------------------------------------------------------------------

    /** Take what the move captures off the board, and re-imprison a prisoner queen. */
    method TakeCaptured(m: Move)
      requires Shape() && Coherent() && ply < MAX_HISTORY && Fits(Position(), m)
      requires history[ply].captured == Empty && history[ply].capturedSq == NO_SQUARE
      requires !history[ply].reprisoned && history[ply].reprisonSq == NO_SQUARE
      modifies mailbox, pieces, occupied, history, this`all
      ensures Coherent() && At() == AfterCapture(old(Position()), m)
      ensures history[..ply] == old(history[..ply])
      ensures var p := old(Position());
              history[ply] == old(history[ply]).(captured := Taken(p, m).0, capturedSq := Taken(p, m).1,
                reprisoned := Reprisons(p, m),
                reprisonSq := if Reprisons(p, m) then Prison(Opposite(p.side)) else NO_SQUARE)
    {
      hide Coherent;
      var them := Opposite(side);
      if m.ep {
        var capSq := Victim(m);
        history[ply] := history[ply].(captured := mailbox[capSq], capturedSq := capSq);
        Remove(capSq);
      } else if IsCapture(m) {
        var taken := mailbox[m.to];
        history[ply] := history[ply].(captured := taken, capturedSq := m.to);
        if mod == SaveQueen && taken != Empty && taken.kind == Queen && !OwnHalf(m.to, them) {
          var prison := Prison(them);
          if mailbox[prison] == Empty {
            history[ply] := history[ply].(reprisoned := true, reprisonSq := prison);
          }
        }
        Remove(m.to);
        if history[ply].reprisoned {
          Place(Prison(them), them, Queen);
        }
      }
    }

    /** Carry the mover, and a castling rook, to where they go. */
    method CarryMen(m: Move, ghost p: Pos)
      requires Shape() && Coherent() && Fits(p, m) && side == p.side && mod == p.mod
      requires At() == AfterCapture(p, m)
      requires heirWhite == p.heirWhite && heirBlack == p.heirBlack
      modifies mailbox, pieces, occupied, this`all, this`heirWhite, this`heirBlack
      ensures Coherent() && At() == AfterMove(p, m)
      ensures heirWhite == (p.heirWhite || CrownsHeir(p, m, White))
      ensures heirBlack == (p.heirBlack || CrownsHeir(p, m, Black))
    {
      hide Coherent;
      Remove(m.from);
      if m.promo.Some? {
        Place(m.to, side, m.promo.value);
        if (mod == Heir || mod == Succession) && m.promo.value == King {
          if side == White { heirWhite := true; } else { heirBlack := true; }
        }
      } else {
        Place(m.to, side, m.piece);
      }
      assert At() == AfterStep(p, m);
      if m.castle {
        if m.to == 6 {
          Remove(7);
          Place(5, White, Rook);
        } else if m.to == 2 {
          Remove(0);
          Place(3, White, Rook);
        } else if m.to == 62 {
          Remove(63);
          Place(61, Black, Rook);
        } else if m.to == 58 {
          Remove(56);
          Place(59, Black, Rook);
        }
      }
    }

    static method Track(marks: Bitboard, m: Move) returns (r: Bitboard)
      ensures r == Tracked(marks, m)
    {
      r := marks - {m.from};
      r := r + {m.to};
      if m.ep { r := r - {Victim(m)}; }
      if m.castle {
        if m.to == 6 { r := r - {7} + {5}; }
        else if m.to == 2 { r := r - {0} + {3}; }
        else if m.to == 62 { r := r - {63} + {61}; }
        else if m.to == 58 { r := r - {56} + {59}; }
      }
    }

    method UpdateRights(m: Move, ghost p: Pos)
      requires castling == p.castling && side == p.side
      modifies this`castling
      ensures castling == RightsAfter(p, m)
    {
      if m.piece == King {
        if side == White { castling := castling.(wk := false, wq := false); }
        else { castling := castling.(bk := false, bq := false); }
      }
      if m.piece == Rook {
        if m.from == 0 { castling := castling.(wq := false); }
        if m.from == 7 { castling := castling.(wk := false); }
        if m.from == 56 { castling := castling.(bq := false); }
        if m.from == 63 { castling := castling.(bk := false); }
      }
      if m.to == 0 { castling := castling.(wq := false); }
      if m.to == 7 { castling := castling.(wk := false); }
      if m.to == 56 { castling := castling.(bq := false); }
      if m.to == 63 { castling := castling.(bk := false); }
    }

    /** King's Battle: look for the events that open phase 2. */
    method UpdatePhase(m: Move, ghost p: Pos)
      requires Shape() && ply < MAX_HISTORY
      requires mod == p.mod && kbUnlocked == p.kbUnlocked && kbIdle == p.kbIdle
      requires history[ply].captured == Taken(p, m).0 && !history[ply].kbBonus
      modifies history, this`kbUnlocked, this`kbIdle
      ensures kbUnlocked == UnlockedAfter(p, m) && kbIdle == IdleAfter(p, m)
      ensures history[..ply] == old(history[..ply])
      ensures history[ply] == old(history[ply]).(kbBonus := KingsKill(p, m))
    {
      if mod == KingsBattle && !kbUnlocked {
        if m.piece == King && IsCapture(m) && history[ply].captured.Man? && history[ply].captured.kind == Pawn {
          kbUnlocked, kbIdle := true, 0;
          history[ply] := history[ply].(kbBonus := true);
        } else if m.piece == Pawn && m.promo.Some? {
          kbUnlocked, kbIdle := true, 0;
        } else if m.piece == King && !IsCapture(m) {
          if kbIdle < 255 { kbIdle := kbIdle + 1; }
          if kbIdle >= 6 { kbUnlocked := true; }
        } else {
          kbIdle := 0;
        }
      }
    }

    /** Truce and Friendly Fire: the marks follow the moved men. */
    method UpdateMarks(m: Move, ghost p: Pos)
      requires mod == p.mod && truceActive == p.truceActive && frozen == p.frozen && ffMoved == p.ffMoved
      modifies this`frozen, this`ffMoved
      ensures frozen == FrozenAfter(p, m) && ffMoved == MovedAfter(p, m)
    {
      if mod == Truce && truceActive { frozen := Track(frozen, m); }
      if mod == FriendlyFire { ffMoved := Track(ffMoved, m); }
    }

    method UpdateClocks(m: Move, ghost p: Pos)
      requires mod == p.mod && side == p.side && halfmove == p.halfmove && fullmove == p.fullmove
      modifies this`ep, this`halfmove, this`fullmove
      ensures ep == EpAfter(p, m) && halfmove == HalfmoveAfter(p, m) && fullmove == FullmoveAfter(p)
    {
      ep := NO_SQUARE;
      if mod != Mercenary && m.piece == Pawn && (m.to - m.from == 16 || m.to - m.from == -16) {
        ep := Sq((Row(m.from) + Row(m.to)) / 2, Col(m.from));
      }
      if m.piece == Pawn || IsCapture(m) { halfmove := 0; } else { halfmove := halfmove + 1; }
      if side == Black { fullmove := fullmove + 1; }
    }

    /** Move the men, and record what the move undoes. */
    method MoveMen(m: Move)
      requires Valid() && ply < MAX_HISTORY && Fits(Position(), m)
      modifies mailbox, pieces, occupied, history, this`all, this`heirWhite, this`heirBlack
      ensures Coherent() && At() == AfterMove(old(Position()), m)
      ensures heirWhite == (old(heirWhite) || CrownsHeir(old(Position()), m, White))
      ensures heirBlack == (old(heirBlack) || CrownsHeir(old(Position()), m, Black))
      ensures history[..ply] == old(history[..ply])
      ensures history[ply] == Record(old(Value()), m).(kbBonus := false)
    {
      hide Coherent, Fits, AfterMove, AfterCapture, CrownsHeir, KingsKill;
      ghost var p := Position();
      history[ply] := Undo(m, Empty, NO_SQUARE, castling, ep, halfmove, hash, heirWhite, heirBlack, truceActive,
                           frozen, ffMoved, kbUnlocked, kbIdle, false, false, NO_SQUARE);
      TakeCaptured(m);
      CarryMen(m, p);
    }

    method UpdateFlags(m: Move, ghost p: Pos)
      requires mod == p.mod && side == p.side && castling == p.castling && truceActive == p.truceActive
      requires frozen == p.frozen && ffMoved == p.ffMoved && halfmove == p.halfmove && fullmove == p.fullmove
      modifies this`frozen, this`ffMoved, this`castling, this`ep, this`halfmove, this`fullmove
      ensures frozen == FrozenAfter(p, m) && ffMoved == MovedAfter(p, m) && castling == RightsAfter(p, m)
      ensures ep == EpAfter(p, m) && halfmove == HalfmoveAfter(p, m) && fullmove == FullmoveAfter(p)
    {
      UpdateMarks(m, p);
      UpdateRights(m, p);
      UpdateClocks(m, p);
    }

    /** Phase, turn and ply. */
    method PassTurn(m: Move, ghost p: Pos)
      requires Shape() && ply < MAX_HISTORY && side == p.side
      requires mod == p.mod && kbUnlocked == p.kbUnlocked && kbIdle == p.kbIdle
      requires history[ply].captured == Taken(p, m).0 && !history[ply].kbBonus
      modifies history, this`kbUnlocked, this`kbIdle, this`side, this`ply
      ensures kbUnlocked == UnlockedAfter(p, m) && kbIdle == IdleAfter(p, m) && side == SideAfter(p, m)
      ensures ply == old(ply) + 1
      ensures history[..ply] == old(history[..ply]) + [old(history[ply]).(kbBonus := KingsKill(p, m))]
    {
      UpdatePhase(m, p);
      var us, them := side, Opposite(side);
      side := if history[ply].kbBonus then us else them;
      ply := ply + 1;
      assert history[..ply] == history[..ply - 1] + [history[ply - 1]];
    }

    /** Everything but the men: flags, phase, turn and ply. */
    method Settle(m: Move, ghost p: Pos)
      requires Shape() && ply < MAX_HISTORY
      requires Position() == p.(at := At(), heirWhite := heirWhite, heirBlack := heirBlack)
      requires history[ply].captured == Taken(p, m).0 && !history[ply].kbBonus
      modifies history, this`frozen, this`ffMoved, this`castling, this`ep, this`halfmove, this`fullmove,
               this`kbUnlocked, this`kbIdle, this`side, this`ply
      ensures Position() == Next(p, m).(at := At(), heirWhite := heirWhite, heirBlack := heirBlack)
      ensures ply == old(ply) + 1
      ensures history[..ply] == old(history[..ply]) + [old(history[ply]).(kbBonus := KingsKill(p, m))]
    {
      hide AfterMove, Taken, KingsKill, UnlockedAfter, IdleAfter, RightsAfter, EpAfter,
           FrozenAfter, MovedAfter, HalfmoveAfter, FullmoveAfter, SideAfter, CrownsHeir;
      UpdateFlags(m, p);
      PassTurn(m, p);
    }

    /** Everything a move changes except the final hash. */
    method Advance(m: Move)
      requires Valid() && ply < MAX_HISTORY && Fits(Position(), m)
      modifies this, mailbox, pieces, occupied, history
      ensures Valid() && Position() == Next(old(Position()), m)
      ensures history[..ply] == old(history[..ply]) + [Record(old(Value()), m)]
    {
      hide Coherent, Fits, AfterMove, Taken, Reprisons, KingsKill, UnlockedAfter, IdleAfter, RightsAfter, EpAfter,
           FrozenAfter, MovedAfter, HalfmoveAfter, FullmoveAfter, SideAfter, CrownsHeir;
      ghost var p := Position();
      MoveMen(m);
      Settle(m, p);
    }

    /** Make a move: every view follows, the hash is recomputed and the undo record pushed. */
    method MakeMove(m: Move)
      requires Valid() && ply < MAX_HISTORY && Fits(Position(), m)
      modifies this, mailbox, pieces, occupied, history
      ensures Valid() && Value() == Make(keys, old(Value()), m)
    {
      hide Coherent, Fits, Next, Hash, Record;
      Advance(m);
      hash := ZobristCompute();
    }

    /** Pass the turn: the hash is updated in constant time, and a right hash stays right. Nothing is pushed. */
    method MakeNull()
      requires Valid()
      modifies this`side, this`ep, this`hash
      ensures Valid() && Position() == NullMove(old(Position()))
      ensures old(hash) == Hash(keys, old(Position())) ==> hash == Hash(keys, Position())
    {
      hide Hash;
      NullMoveHash(keys, Position());
      XorNothing();
      side := Opposite(side);
      hash := Xor(hash, keys.side);
      if ep != NO_SQUARE { hash := Xor(hash, keys.ep(ep)); }
      ep := NO_SQUARE;
    }

    /** Take the turn back: what a null move changed is put back from saved values. */
    method UnmakeNull(savedSide: Color, savedEp: SquareOrNone, savedHash: Word)
      requires Valid()
      modifies this`side, this`ep, this`hash
      ensures Valid() && hash == savedHash && Position() == old(Position()).(side := savedSide, ep := savedEp)
    {
      side, ep, hash := savedSide, savedEp, savedHash;
    }

    // ---- Unmake --------------------------------------------------------------------

    /** Put every man back: the mover, a re-imprisoned queen, the captured man, a castling rook. */
    method ReturnMen(u: Undo, us: Color, ghost before: State)
      requires Shape() && Coherent() && Fits(before.pos, u.move) && us == before.pos.side
      requires u == Record(before, u.move) && At() == AfterMove(before.pos, u.move)
      modifies mailbox, pieces, occupied, this`all
      ensures Coherent() && At() == PlacementBefore(old(At()), us, u)
    {
      hide Coherent;
      var m := u.move;
      Remove(m.to);
      Place(m.from, us, m.piece);
      if u.reprisoned && u.reprisonSq != NO_SQUARE {
        Remove(u.reprisonSq);
      }
      if u.captured != Empty {
        Place(u.capturedSq, u.captured.color, u.captured.kind);
      }
      if m.castle {
        ReturnCastlingRook(m.to);
      }
    }

    method ReturnCastlingRook(to: Square)
      requires Coherent()
      requires var rook := CastlingRook(to); rook.Some? && At()[rook.value.0] == Empty
      modifies mailbox, pieces, occupied, this`all
      ensures Coherent()
      ensures var rook := CastlingRook(to).value;
              At() == old(At())[rook.1 := Empty][rook.0 := Man(rook.2, Rook)]
    {
      if to == 6 {
        Remove(5);
        Place(7, White, Rook);
      } else if to == 2 {
        Remove(3);
        Place(0, White, Rook);
      } else if to == 62 {
        Remove(61);
        Place(63, Black, Rook);
      } else if to == 58 {
        Remove(59);
        Place(56, Black, Rook);
      }
    }

    method RestoreRights(u: Undo, us: Color)
      modifies this`side, this`castling, this`ep, this`halfmove, this`fullmove
      ensures side == us && castling == u.castling && ep == u.ep && halfmove == u.halfmove
      ensures fullmove == if us == Black then old(fullmove) - 1 else old(fullmove)
    {
      side := us;
      castling, ep, halfmove := u.castling, u.ep, u.halfmove;
      if us == Black { fullmove := fullmove - 1; }
    }

    method RestoreModState(u: Undo)
      modifies this`heirWhite, this`heirBlack, this`truceActive, this`frozen, this`ffMoved, this`kbUnlocked, this`kbIdle
      ensures heirWhite == u.heirWhite && heirBlack == u.heirBlack && truceActive == u.truceActive
      ensures frozen == u.frozen && ffMoved == u.ffMoved && kbUnlocked == u.kbUnlocked && kbIdle == u.kbIdle
    {
      heirWhite, heirBlack, truceActive := u.heirWhite, u.heirBlack, u.truceActive;
      frozen, ffMoved, kbUnlocked, kbIdle := u.frozen, u.ffMoved, u.kbUnlocked, u.kbIdle;
    }

    /** Restore the saved flags and clocks. */
    method RestoreFlags(u: Undo, us: Color)
      requires Shape()
      modifies this`side, this`castling, this`ep, this`halfmove, this`hash, this`heirWhite, this`heirBlack,
               this`truceActive, this`frozen, this`ffMoved, this`kbUnlocked, this`kbIdle, this`fullmove
      ensures hash == u.hash
      ensures Position() == Restored(old(Position()), At(), us, u)
    {
      RestoreRights(u, us);
      RestoreModState(u);
      hash := u.hash;
    }

    /** Unmake the last move: the board is what it was before it, dead undo slots aside. */
    method UnmakeMove(ghost before: State)
      requires Valid() && 0 < ply && Fits(before.pos, history[ply - 1].move)
      requires Value() == Make(keys, before, history[ply - 1].move)
      modifies this, mailbox, pieces, occupied
      ensures Valid() && Value() == before
    {
      hide Coherent, Fits, AfterMove, PlacementBefore, Hash, Record, MoverOf;
      ghost var st, m := Value(), history[ply - 1].move;
      var u := history[ply - 1];
      LastRecord(keys, before, m);
      assert st.stack[|st.stack| - 1] == u;
      UnmakeMake(keys, before, m);
      ply := ply - 1;
      var us := if u.kbBonus then side else Opposite(side);
      ReturnMen(u, us, before);
      RestoreFlags(u, us);
      assert history[..ply] == st.stack[..|st.stack| - 1];
      assert Position() == Restored(st.pos, PlacementBefore(st.pos.at, us, u), us, u);
    }
  }
}
