/** King's Battle: phase 1 ends, and what holds until it does. */
module KingsBattleRuns {
  import opened Types
  import opened Position
  import opened Making
  import opened Rules
  import opened Reachable
  import opened Totals
  import opened Runs

  // ---- Phase 1 is finite -----------------------------------------------------------

  /** One for every man, and for a pawn the ranks it has still to go. */
  function Burden(x: Piece, s: int): int {
    match x
    case Empty => 0
    case Man(c, k) => if k != Pawn then 1 else if c == White then 8 - s / 8 else 1 + s / 8
  }

  ghost function Measure(p: Pos): int {
    6 * Total(p.at, Burden) + if p.kbIdle <= 5 then 5 - p.kbIdle else 0
  }

  lemma MeasureWithin(p: Pos)
    ensures 0 <= Measure(p) <= 3077
  {
    TotalWithin(p.at, Burden, 8);
  }

  /** In phase 1 only kings and pawns move, and a pawn that stays in it does not promote. */
  lemma Phase1Shape(p: Pos, m: Move)
    requires Pseudo(p, m) && Locked(p) && Locked(Next(p, m))
    ensures !m.castle && !KingsKill(p, m) && m.promo.None?
    ensures m.piece == King || m.piece == Pawn
    ensures m.piece == Pawn ==> Burden(Man(p.side, Pawn), m.to) < Burden(Man(p.side, Pawn), m.from)
    ensures m.piece == King && !IsCapture(m) ==> p.kbIdle < 5 && IdleAfter(p, m) == p.kbIdle + 1
    ensures m.piece == Pawn || IsCapture(m) ==> IdleAfter(p, m) == 0
  {
    hide MayTake, MayBecome, AwayFromHeir, KingsKill, QueenMove, AfterMove, RightsAfter, EpAfter;
    assert m.castle ==> CastleMove(p, m);
    assert !m.castle;
    assert m.piece == Pawn <==> PawnMove(p, m);
  }

  /** Every generated move that leaves the game in phase 1 lowers the measure. */
  lemma Phase1Descends(p: Pos, m: Move)
    requires Pseudo(p, m) && EpFree(p) && Locked(p) && Locked(Next(p, m))
    ensures Measure(Next(p, m)) < Measure(p)
  {
    hide Pseudo, Fits, AfterMove, KingsKill, IdleAfter, UnlockedAfter, RightsAfter, EpAfter, Locked;
    Phase1Shape(p, m);
    LockedMod(p);
    EpVouches(p, m);
    VouchedFits(p, m);
    MoveTotal(p, m, Burden);
    TakenWeighs(p, m);
    assert RookShift(m, Burden) == 0 && !Reprisons(p, m);
  }

  lemma LockedMod(p: Pos)
    requires Locked(p)
    ensures p.mod == KingsBattle
  {
  }

  lemma EpVouches(p: Pos, m: Move)
    requires Pseudo(p, m) && !m.castle && EpFree(p)
    ensures Vouched(p, m)
  {
    if m.ep { EpShape(p, m); }
  }

  lemma TakenWeighs(p: Pos, m: Move)
    requires Fits(p, m)
    ensures IsCapture(m) ==> Burden(Taken(p, m).0, Taken(p, m).1) >= 1
  {
  }

  lemma {:induction false} UnlockIsForever(p: Pos, ms: seq<Move>)
    requires p.kbUnlocked
    ensures After(p, ms).kbUnlocked
    decreases |ms|
  {
    if ms != [] {
      UnlockIsForever(Next(p, ms[0]), ms[1..]);
    }
  }

  /** Phase 1 cannot last: from any position of King's Battle, a game still in phase 1 has at most
      Measure(p) plies behind it. */
  lemma {:induction false} Phase1Bounded(p: Pos, ms: seq<Move>)
    requires p.mod == KingsBattle && EpFree(p) && Run(p, ms) && Locked(After(p, ms))
    ensures |ms| <= Measure(p) <= 3077
    decreases |ms|
  {
    hide Pseudo, Next, Measure, EpSound;
    MeasureWithin(p);
    if ms != [] {
      var q := Next(p, ms[0]);
      StillLocked(p, ms);
      EpKept(p, ms[0]);
      NextMod(p, ms[0]);
      SoundFrees(q);
      Phase1Descends(p, ms[0]);
      Phase1Bounded(q, ms[1..]);
    }
  }

  lemma SoundFrees(p: Pos)
    ensures EpSound(p) ==> EpFree(p)
  {
  }

  lemma StillLocked(p: Pos, ms: seq<Move>)
    requires ms != [] && p.mod == KingsBattle && Locked(After(p, ms))
    ensures Locked(p) && Locked(Next(p, ms[0]))
  {
    NextMod(p, ms[0]);
    if p.kbUnlocked { UnlockIsForever(p, ms); }
    if Next(p, ms[0]).kbUnlocked { UnlockIsForever(Next(p, ms[0]), ms[1..]); }
  }

  // ---- While phase 1 lasts ------------------------------------------------------------

  predicate IsOfficer(x: Piece) { x.Man? && x.kind != Pawn && x.kind != King }

  /** Every knight, bishop, rook and queen stands where one like it stood before. */
  ghost predicate OfficersWhere(at: Placement, before: Placement) {
    forall s: Square :: IsOfficer(at[s]) ==> at[s] == before[s]
  }

  ghost predicate Phase1Safe(p: Pos, before: Placement) {
    OfficersWhere(p.at, before) && p.halfmove == p.kbIdle && p.kbIdle <= 5
  }

  lemma Phase1SafeStep(p: Pos, m: Move, before: Placement)
    requires Pseudo(p, m) && EpFree(p) && Locked(p) && Locked(Next(p, m)) && Phase1Safe(p, before)
    ensures Phase1Safe(Next(p, m), before)
  {
    hide Pseudo, KingsKill, IdleAfter, UnlockedAfter, RightsAfter, EpAfter, Locked;
    Phase1Shape(p, m);
    LockedMod(p);
    EpVouches(p, m);
    VouchedFits(p, m);
    assert !Reprisons(p, m);
  }

  /** From a start with both clocks equal, whatever is played: as long as phase 1 lasts no officer has
      left its square, and the fifty-move clock is the idle-king count, at most five. */
  lemma {:induction false} Phase1IsSafe(p: Pos, ms: seq<Move>, before: Placement)
    requires p.mod == KingsBattle && EpFree(p) && Run(p, ms) && Locked(After(p, ms)) && Phase1Safe(p, before)
    ensures Phase1Safe(After(p, ms), before)
    decreases |ms|
  {
    hide Pseudo, Next, EpSound, Phase1Safe;
    if ms != [] {
      var q := Next(p, ms[0]);
      StillLocked(p, ms);
      EpKept(p, ms[0]);
      NextMod(p, ms[0]);
      SoundFrees(q);
      Phase1SafeStep(p, ms[0], before);
      Phase1IsSafe(q, ms[1..], before);
    }
  }

  // ---- The bonus move ------------------------------------------------------------------

  /** The plies after which the same side is to move again. */
  ghost function BonusPlies(p: Pos, ms: seq<Move>): nat
    decreases |ms|
  {
    if ms == [] then 0
    else (if Next(p, ms[0]).side == p.side then 1 else 0) + BonusPlies(Next(p, ms[0]), ms[1..])
  }

  /** In any game, of any mod, at most one ply keeps the turn, and none once phase 1 is over. */
  lemma {:induction false} AtMostOneBonus(p: Pos, ms: seq<Move>)
    ensures BonusPlies(p, ms) <= if Locked(p) then 1 else 0
    decreases |ms|
  {
    if ms != [] {
      KillUnlocks(p, ms[0]);
      AtMostOneBonus(Next(p, ms[0]), ms[1..]);
    }
  }

  lemma KillUnlocks(p: Pos, m: Move)
    ensures Next(p, m).side == p.side ==> Locked(p) && !Locked(Next(p, m))
    ensures Locked(Next(p, m)) ==> Locked(p)
  {
    hide AfterMove, RightsAfter, EpAfter, Tracked;
  }
}
