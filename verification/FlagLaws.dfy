/** What a move, and a whole game, does to rights, en passant, clocks, turn, phase and marks. */
module FlagLaws {
  import opened Types
  import opened Position
  import opened Making
  import opened Rules
  import opened Reachable
  import opened Totals
  import opened Runs
  import opened MoveMeaning

  // ---- Rights and en passant ---------------------------------------------------------------

  /** A right lasts as long as no king of its side moves and its rook's corner is neither left nor entered. */
  lemma RightsLastExactly(p: Pos, m: Move, w: Wing)
    requires Pseudo(p, m) && Sound(p)
    ensures HasRight(Next(p, m).castling, w) <==>
            && HasRight(p.castling, w) && p.at[m.from] != Man(w.color, King)
            && m.from != RookHome(w) && m.to != RookHome(w)
  {
    PseudoFits(p, m);
    hide Pseudo, EpSound, AfterMove, EpAfter, FrozenAfter, MovedAfter, KingsKill, UnlockedAfter, IdleAfter;
  }

  /** The square is set exactly when a pawn has just gone two squares, and it is the one between; never in
      Mercenary. */
  lemma EpSetExactly(p: Pos, m: Move, s: Square)
    ensures Next(p, m).ep == s <==>
            && p.mod != Mercenary && m.piece == Pawn && Col(s) == Col(m.from) && Col(m.to) == Col(m.from)
            && Abs(Row(m.to) - Row(m.from)) == 2 && 2 * Row(s) == Row(m.from) + Row(m.to)
  {
    assert Next(p, m).ep == EpAfter(p, m);
    TwoRows(m.from, m.to);
    if IsDoublePush(m) { Between(m.from, m.to, s); }
    hide Next, Row, Col, Sq;
  }

  lemma TwoRows(a: Square, b: Square)
    ensures b - a == 16 || b - a == -16 <==> Col(b) == Col(a) && Abs(Row(b) - Row(a)) == 2
  {
    assert a == 8 * Row(a) + Col(a) && b == 8 * Row(b) + Col(b);
  }

  lemma Between(a: Square, b: Square, s: Square)
    requires b - a == 16 || b - a == -16
    ensures s == Sq((Row(a) + Row(b)) / 2, Col(a)) <==> Col(s) == Col(a) && 2 * Row(s) == Row(a) + Row(b)
  {
    TwoRows(a, b);
    var r, d := Row(a), if Row(b) > Row(a) then 1 else -1;
    assert Row(b) == r + 2 * d && (r + Row(b)) / 2 == r + d && 0 <= r + d < 8;
    SquareAt(s, r + d, Col(a));
    hide Row, Col, Sq;
  }

  lemma SquareAt(s: Square, r: int, c: int)
    requires OnBoard(r, c)
    ensures s == Sq(r, c) <==> Row(s) == r && Col(s) == c
  {
    assert s == 8 * Row(s) + Col(s);
  }

  // ---- The turn and the clocks ---------------------------------------------------------------

  /** The mover moves again exactly when, in phase 1 of King's Battle, its king has taken a pawn. */
  lemma SameTurnExactly(p: Pos, m: Move)
    requires Fits(p, m)
    ensures Next(p, m).side == p.side <==>
            p.mod == KingsBattle && !p.kbUnlocked && m.piece == King && m.captured == Some(Pawn)
  {
    hide AfterMove, RightsAfter, EpAfter, FrozenAfter, MovedAfter;
  }

  predicate Irreversible(m: Move) { m.piece == Pawn || m.captured.Some? }

  /** How many moves at the end of a game are neither pawn moves nor captures. */
  function QuietTail(ms: seq<Move>): nat {
    if ms == [] || Irreversible(ms[|ms| - 1]) then 0 else 1 + QuietTail(ms[..|ms| - 1])
  }

  lemma {:induction false} AfterLast(p: Pos, ms: seq<Move>)
    requires ms != []
    ensures After(p, ms) == Next(After(p, ms[..|ms| - 1]), ms[|ms| - 1])
    decreases |ms|
  {
    hide Next;
    if |ms| > 1 {
      AfterLast(Next(p, ms[0]), ms[1..]);
      assert ms[1..][..|ms| - 2] == ms[..|ms| - 1][1..];
    }
  }

  lemma {:induction false} QuietTailBound(ms: seq<Move>)
    ensures QuietTail(ms) <= |ms|
  {
    if ms != [] { QuietTailBound(ms[..|ms| - 1]); }
  }

  /** The fifty-move clock counts the moves since the last pawn move or capture. */
  lemma {:induction false} ClockCounts(p: Pos, ms: seq<Move>)
    ensures After(p, ms).halfmove == QuietTail(ms) + if QuietTail(ms) == |ms| then p.halfmove else 0
    decreases |ms|
  {
    hide AfterMove, RightsAfter, EpAfter, FrozenAfter, MovedAfter, KingsKill, UnlockedAfter, IdleAfter;
    if ms != [] {
      var front := ms[..|ms| - 1];
      AfterLast(p, ms);
      ClockCounts(p, front);
      QuietTailBound(front);
    }
  }

  /** How many plies of a game Black played. */
  function BlackPlies(p: Pos, ms: seq<Move>): nat
    decreases |ms|
  {
    if ms == [] then 0 else (if p.side == Black then 1 else 0) + BlackPlies(Next(p, ms[0]), ms[1..])
  }

  /** The move number counts Black's moves. */
  lemma {:induction false} MoveNumberCounts(p: Pos, ms: seq<Move>)
    ensures After(p, ms).fullmove == p.fullmove + BlackPlies(p, ms)
    decreases |ms|
  {
    hide AfterMove, RightsAfter, EpAfter, FrozenAfter, MovedAfter, KingsKill, UnlockedAfter, IdleAfter;
    if ms != [] { MoveNumberCounts(Next(p, ms[0]), ms[1..]); }
  }

  // ---- King's Battle ---------------------------------------------------------------------------

  predicate QuietKing(m: Move) { m.piece == King && m.captured.None? }

  /** How many quiet king moves end the game. */
  function KingTail(ms: seq<Move>): nat {
    if ms == [] || !QuietKing(ms[|ms| - 1]) then 0 else 1 + KingTail(ms[..|ms| - 1])
  }

  /** A king takes a pawn, a pawn promotes, or six quiet king moves follow each other. */
  ghost predicate Opened(ms: seq<Move>) {
    ms != [] &&
    var last := ms[|ms| - 1];
    || (last.piece == King && last.captured == Some(Pawn)) || (last.piece == Pawn && last.promo.Some?)
    || KingTail(ms) >= 6 || Opened(ms[..|ms| - 1])
  }

  lemma OpensExactly(q: Pos, m: Move, tail: nat)
    requires Fits(q, m) && Locked(q) && q.kbIdle == tail < 6
    ensures var opens := (m.piece == King && m.captured == Some(Pawn)) || (m.piece == Pawn && m.promo.Some?)
                         || (QuietKing(m) && tail + 1 >= 6);
            && Next(q, m).kbUnlocked == opens
            && (!opens ==> Next(q, m).kbIdle == if QuietKing(m) then tail + 1 else 0)
  {
    hide AfterMove, RightsAfter, EpAfter, FrozenAfter, MovedAfter;
  }

  lemma StaysOpen(q: Pos, m: Move)
    ensures q.kbUnlocked ==> Next(q, m).kbUnlocked
    ensures Next(q, m).mod == q.mod
  {
  }

  /** Phase 2 begins exactly with a king that takes a pawn, a promotion, or a sixth quiet king move in a row; until
      then the idle count is the number of quiet king moves that end the game. */
  lemma {:induction false} PhaseTwoExactly(p: Pos, ms: seq<Move>)
    requires p.mod == KingsBattle && !p.kbUnlocked && p.kbIdle == 0 && Sound(p) && Run(p, ms)
    ensures After(p, ms).kbUnlocked <==> Opened(ms)
    ensures !Opened(ms) ==> After(p, ms).kbIdle == KingTail(ms) < 6
    ensures Sound(After(p, ms)) && After(p, ms).mod == KingsBattle
    decreases |ms|
  {
    hide Next, Pseudo, Sound;
    if ms != [] {
      var front, m := ms[..|ms| - 1], ms[|ms| - 1];
      RunFront(p, ms);
      PhaseTwoExactly(p, front);
      var q := After(p, front);
      AfterLast(p, ms);
      PseudoFits(q, m);
      StaysOpen(q, m);
      SoundKept(q, m);
      if !q.kbUnlocked { OpensExactly(q, m, KingTail(front)); }
    }
  }

  lemma {:induction false} RunFront(p: Pos, ms: seq<Move>)
    requires ms != [] && Run(p, ms)
    ensures Run(p, ms[..|ms| - 1]) && Pseudo(After(p, ms[..|ms| - 1]), ms[|ms| - 1])
    decreases |ms|
  {
    hide Next, Pseudo;
    if |ms| > 1 {
      RunFront(Next(p, ms[0]), ms[1..]);
      assert ms[1..][..|ms| - 2] == ms[..|ms| - 1][1..];
    }
  }

  // ---- Marks of Friendly Fire -------------------------------------------------------------------

  /** The marks follow the men: the mover's target, and a castling rook's, are marked; what they left, and a pawn
      taken in passing, are not; elsewhere nothing changes. */
  lemma MarksFollow(p: Pos, m: Move, s: Square)
    requires Fits(p, m) && p.mod == FriendlyFire
    ensures s in Next(p, m).ffMoved <==>
            || s == m.to || (m.castle && s == RookLands(WingOf(p, m)))
            || (s in p.ffMoved && s != m.from && !(m.ep && s == Passed(m))
                && !(m.castle && s == RookHome(WingOf(p, m))))
  {
    hide AfterMove, RightsAfter, EpAfter, KingsKill, UnlockedAfter, IdleAfter;
  }

  /** An unmarked man has never moved: in a game that begins without marks it stands where it stood, and nothing
      else has been there. */
  lemma {:induction false} UnmarkedNeverMoved(p: Pos, ms: seq<Move>, s: Square)
    requires p.mod == FriendlyFire && Sound(p) && p.ffMoved == {} && Run(p, ms)
    ensures After(p, ms).mod == FriendlyFire && Sound(After(p, ms))
    ensures After(p, ms).at[s] != Empty && s !in After(p, ms).ffMoved ==> After(p, ms).at[s] == p.at[s]
    decreases |ms|
  {
    hide Next, Pseudo, Sound, Fits;
    if ms != [] {
      var front, m := ms[..|ms| - 1], ms[|ms| - 1];
      RunFront(p, ms);
      UnmarkedNeverMoved(p, front, s);
      var q := After(p, front);
      AfterLast(p, ms);
      PseudoFits(q, m);
      SoundKept(q, m);
      StaysOpen(q, m);
      if Next(q, m).at[s] != Empty && s !in Next(q, m).ffMoved { UnmarkedStep(q, m, s); }
    }
  }

  lemma UnmarkedStep(q: Pos, m: Move, s: Square)
    requires Fits(q, m) && q.mod == FriendlyFire && Next(q, m).at[s] != Empty && s !in Next(q, m).ffMoved
    ensures q.at[s] == Next(q, m).at[s] && s !in q.ffMoved
  {
    MarksFollow(q, m, s);
    LandsAsNamed(q, m);
    if !About(q, m, s) { ElsewhereNothingChanges(q, m, s); }
    hide Next;
  }

  // ---- Heirs ----------------------------------------------------------------------------------------

  /** A side has crowned an heir exactly when its kings have become more at some move. */
  lemma CrownedExactly(p: Pos, m: Move, c: Color)
    requires Fits(p, m) && (p.mod == Heir || p.mod == Succession)
    requires p.at[m.to].Man? ==> p.at[m.to].color != p.side
    ensures HeirPromoted(Next(p, m), c) <==>
            HeirPromoted(p, c) || |Of(Next(p, m).at, c, King)| > |Of(p.at, c, King)|
  {
    CountOf(p.at, c, King);
    CountOf(Next(p, m).at, c, King);
    MoveTotal(p, m, Counts(c, King));
  }
}
