/** What the ends of a game are worth in the search, told from the men on the board. */
module Verdicts {
  import opened Types
  import opened Bitboards
  import opened Position
  import opened Attacks
  import opened Making
  import opened MoveLists
  import Captures
  import opened Legality
  import opened LegalGeneration
  import opened KingSafety
  import opened Exchange
  import opened See
  import opened GameValue
  import opened Search

  // ---- Mate and stalemate ---------------------------------------------------------------------

  /** The hash is not one recorded an even number of plies ago. */
  predicate NewHash(st: State) {
    |st.stack| < 4 ||
    forall i :: 0 <= i < |st.stack| - 1 && (|st.stack| - i) % 2 == 0 ==> st.stack[i].hash != st.hash
  }

  /** Save the Queen: her (lowest) queen stands where she is at home. */
  predicate Arrived(at: Placement, c: Color) { IsLsb(Of(at, c, Queen), if c == White then 3 else 59) }

  lemma ArrivedIsHome(at: Placement, c: Color)
    ensures Arrived(at, c) <==> QueenHome(at, c)
  {
    var queens := Of(at, c, Queen);
    if queens != {} { FirstKing(queens, Lsb(queens)); }
  }

  predicate Crowned(p: Pos, c: Color) { if c == White then p.heirWhite else p.heirBlack }

  predicate NoKing(at: Placement, c: Color) { forall s: Square :: at[s] != Man(c, King) }

  lemma NoKingAtAll(at: Placement, c: Color)
    ensures NoKing(at, c) <==> Of(at, c, King) == {}
  {
    if Of(at, c, King) != {} {
      var s :| s in Of(at, c, King);
      assert at[s] == Man(c, King);
    } else {
      forall s: Square ensures at[s] != Man(c, King) { assert s !in Of(at, c, King); }
    }
  }

  /** Succession: a side that has not crowned an heir needs two queens and a pawn. */
  predicate Lacking(p: Pos, c: Color) { !Crowned(p, c) && (|Of(p.at, c, Queen)| < 2 || NoPawn(p.at, c)) }

  /** The last move took a queen that had escaped to her own half. */
  predicate JustTook(st: State) {
    st.stack != [] &&
    var u := st.stack[|st.stack| - 1];
    u.captured.Man? && u.captured.kind == Queen && u.capturedSq != NO_SQUARE && OwnHalf(u.capturedSq, u.captured.color)
  }

  /** Nothing ends the game here before the moves are looked at: no repetition, no queen home or lost for good, no
      side beyond hope. */
  predicate Undecided(st: State) {
    var p, us, them := st.pos, st.pos.side, Opposite(st.pos.side);
    && NewHash(st)
    && (p.mod == SaveQueen ==> !Arrived(p.at, White) && !Arrived(p.at, Black) && !JustTook(st))
    && (p.mod == Heir ==> !(NoKing(p.at, us) && (Crowned(p, us) || NoPawn(p.at, us))))
    && (p.mod == Succession ==> !Crowned(p, them) && !Lacking(p, us) && !Lacking(p, them))
  }

  lemma NewIsNot(st: State)
    ensures NewHash(st) <==> !Repeated(st)
  {
  }

  lemma NothingDecided(st: State, ply: int)
    requires Undecided(st)
    ensures !Repeated(st) && QueenVerdict(st, ply).None? && Verdict(st.pos, ply).None?
  {
    var p := st.pos;
    hide Arrived, QueenHome, NoKing, NoPawn;
    ArrivedIsHome(p.at, White);
    ArrivedIsHome(p.at, Black);
    NoKingAtAll(p.at, p.side);
    NoPawnAtAll(p.at, White);
    NoPawnAtAll(p.at, Black);
  }

  predicate NoMoves(p: Pos) { LegalMoves(p) == [] }

  /** Without a legal move and with the king controlled by an enemy man, the side to move is mated, at any
      depth: the main search and the quiescence agree on it. */
  lemma MatedValue(keys: Keys, j: Judge, st: State, depth: int, ply: nat)
    requires Judged(j) && ply < MAX_PLY && Undecided(st) && NoMoves(st.pos)
    requires CheckCounts(st.pos, st.pos.side) && Exposed(st.pos, st.pos.side)
    ensures Value(keys, j, st, depth, ply) == -(MATE - ply)
  {
    hide LegalMoves, InCheck, CheckCounts, Exposed, Repeated, QueenVerdict, QValue, HeirLost, SuccessionVerdict;
    hide Undecided;
    NothingDecided(st, ply);
    CheckIsExposure(st.pos, st.pos.side);
    if depth <= 0 { MatedQuietly(keys, j, st, ply); }
  }

  lemma MatedQuietly(keys: Keys, j: Judge, st: State, ply: nat)
    requires Judged(j) && ply < MAX_PLY && Undecided(st) && NoMoves(st.pos) && InCheck(st.pos, st.pos.side)
    ensures QValue(keys, j, st, ply, 0) == -(MATE - ply)
  {
    hide LegalMoves, InCheck, Repeated, QueenVerdict, Undecided;
    NothingDecided(st, ply);
    assert QSettled(j, st, ply, 0).None?;
    assert QMoves(j, st.pos, 0) == [];
  }

  /** A kingless side of Heir that cannot move has lost as well. */
  lemma KinglessValue(keys: Keys, j: Judge, st: State, depth: int, ply: nat)
    requires Judged(j) && ply < MAX_PLY && depth > 0 && Undecided(st) && NoMoves(st.pos)
    requires st.pos.mod == Heir && NoKing(st.pos.at, st.pos.side)
    ensures Value(keys, j, st, depth, ply) == -(MATE - ply)
  {
    hide LegalMoves, InCheck, Repeated, QueenVerdict, HeirLost, SuccessionVerdict, Undecided, NoKing, Best, QValue;
    NothingDecided(st, ply);
    NoKingAtAll(st.pos.at, st.pos.side);
  }

  /** Without a legal move and with nobody controlling the king, or check not counting, it is a draw. */
  lemma StalemateValue(keys: Keys, j: Judge, st: State, depth: int, ply: nat)
    requires Judged(j) && ply < MAX_PLY && depth > 0 && Undecided(st) && NoMoves(st.pos)
    requires !(CheckCounts(st.pos, st.pos.side) && Exposed(st.pos, st.pos.side))
    requires st.pos.mod == Heir ==> exists s: Square :: st.pos.at[s] == Man(st.pos.side, King)
    ensures Value(keys, j, st, depth, ply) == 0
  {
    hide LegalMoves, InCheck, CheckCounts, Exposed, Repeated, QueenVerdict, HeirLost, SuccessionVerdict, Undecided;
    NothingDecided(st, ply);
    CheckIsExposure(st.pos, st.pos.side);
    if st.pos.mod == Heir {
      var s: Square :| st.pos.at[s] == Man(st.pos.side, King);
      assert s in Of(st.pos.at, st.pos.side, King);
    }
  }

  /** A move that mates is worth a mate at the next ply, at any depth; to the mover if the turn passes. */
  lemma MatingMove(keys: Keys, j: Judge, st: State, m: Move, depth: int, ply: nat)
    requires Judged(j) && ply + 1 < MAX_PLY
    requires var q := Next(st.pos, m); NoMoves(q) && CheckCounts(q, q.side) && Exposed(q, q.side)
    requires Undecided(Make(keys, st, m)) && Next(st.pos, m).side != st.pos.side
    ensures Score(keys, j, st, m, depth, ply) == MATE - ply - 1
  {
    hide Value, Extension, Next, NoMoves, CheckCounts, Exposed, Undecided, Hash, Record;
    MatedValue(keys, j, Make(keys, st, m), depth - 1 + Extension(j, st, m, depth), ply + 1);
  }

  /** So a side that can mate has the best value there is at its ply. */
  lemma MateInOne(keys: Keys, j: Judge, st: State, m: Move, depth: int, ply: nat)
    requires Judged(j) && ply + 1 < MAX_PLY && depth > 0 && Undecided(st) && m in LegalMoves(st.pos)
    requires var q := Next(st.pos, m); NoMoves(q) && CheckCounts(q, q.side) && Exposed(q, q.side)
    requires Undecided(Make(keys, st, m)) && Next(st.pos, m).side != st.pos.side
    ensures Value(keys, j, st, depth, ply) == MATE - ply - 1
  {
    NothingDecided(st, ply);
    assert Settled(j, st, ply).None? && Verdict(st.pos, ply).None?;
    hide Value, Extension, Next, NoMoves, CheckCounts, Exposed, Undecided, Settled, Verdict, LegalMoves, Score;
    MatingMove(keys, j, st, m, depth, ply);
    ValueIsBest(keys, j, st, depth, ply, LegalMoves(st.pos));
  }

  /** A move that stalemates is worth a draw, once depth is left to see it. */
  lemma StalematingMove(keys: Keys, j: Judge, st: State, m: Move, depth: int, ply: nat)
    requires Judged(j) && ply + 1 < MAX_PLY && depth > 1
    requires var q := Next(st.pos, m); NoMoves(q) && !(CheckCounts(q, q.side) && Exposed(q, q.side))
    requires var q := Next(st.pos, m); q.mod == Heir ==> exists s: Square :: q.at[s] == Man(q.side, King)
    requires Undecided(Make(keys, st, m))
    ensures Score(keys, j, st, m, depth, ply) == 0
  {
    hide Value, Extension, Next, NoMoves, CheckCounts, Exposed, Undecided, Hash, Record;
    StalemateValue(keys, j, Make(keys, st, m), depth - 1 + Extension(j, st, m, depth), ply + 1);
  }

  // ---- Repetition -----------------------------------------------------------------------------------

  /** A move back to a hash recorded an even number of plies ago is a draw at any depth. */
  lemma RepetitionDraws(keys: Keys, j: Judge, st: State, m: Move, depth: int, ply: nat, i: nat)
    requires Judged(j) && ply < MAX_PLY && |st.stack| >= 3 && i < |st.stack| && (|st.stack| + 1 - i) % 2 == 0
    requires st.stack[i].hash == Hash(keys, Next(st.pos, m))
    ensures Score(keys, j, st, m, depth, ply) == 0
  {
    hide Extension, Next, Hash, Record;
    var after := Make(keys, st, m);
    assert after.stack[i] == st.stack[i] && Repeated(after);
    hide Repeated;
  }

  // ---- Verdicts of the mods ---------------------------------------------------------------------------

  /** The child's value decides the move's score. */
  lemma DecidedMove(keys: Keys, j: Judge, st: State, m: Move, depth: int, ply: nat, v: int)
    requires Judged(j) && ply + 1 < MAX_PLY && Next(st.pos, m).side != st.pos.side
    requires !Repeated(Make(keys, st, m))
    requires var after := Make(keys, st, m);
             || QueenVerdict(after, ply + 1) == Some(v)
             || (QueenVerdict(after, ply + 1).None? && Verdict(after.pos, ply + 1) == Some(v))
    ensures Score(keys, j, st, m, depth, ply) == -v
  {
    hide Extension, Next, Hash, Record, Repeated, QueenVerdict, HeirLost, SuccessionVerdict, LegalMoves, InCheck;
    var after := Make(keys, st, m);
    if QueenVerdict(after, ply + 1).None? {
      assert QSettled(j, after, ply + 1, 0) == Verdict(after.pos, ply + 1);
    }
  }

  /** Bringing her home wins. */
  lemma QueenComesHome(keys: Keys, j: Judge, st: State, m: Move, depth: int, ply: nat)
    requires Judged(j) && ply + 1 < MAX_PLY && st.pos.mod == SaveQueen && NewHash(Make(keys, st, m))
    requires var q := Next(st.pos, m).at; Arrived(q, st.pos.side) && !Arrived(q, Opposite(st.pos.side))
    ensures Score(keys, j, st, m, depth, ply) == MATE - ply - 1
  {
    NewIsNot(Make(keys, st, m));
    hide Repeated, NewHash, Arrived, QueenHome, AfterMove, Hash;
    ArrivedIsHome(Next(st.pos, m).at, White);
    ArrivedIsHome(Next(st.pos, m).at, Black);
    assert Next(st.pos, m).side == Opposite(st.pos.side);
    DecidedMove(keys, j, st, m, depth, ply, -(MATE - ply - 1));
  }

  /** So does taking a queen that has escaped to her own half. */
  lemma EscapedQueenTaken(keys: Keys, j: Judge, st: State, m: Move, depth: int, ply: nat)
    requires Judged(j) && ply + 1 < MAX_PLY && st.pos.mod == SaveQueen && NewHash(Make(keys, st, m))
    requires var q := Next(st.pos, m).at; !Arrived(q, White) && !Arrived(q, Black)
    requires var them := Opposite(st.pos.side);
             IsCapture(m) && !m.ep && st.pos.at[m.to] == Man(them, Queen) && OwnHalf(m.to, them)
    ensures Score(keys, j, st, m, depth, ply) == MATE - ply - 1
  {
    NewIsNot(Make(keys, st, m));
    hide Repeated, NewHash, Arrived, QueenHome, AfterMove, Hash, OwnHalf;
    ArrivedIsHome(Next(st.pos, m).at, White);
    ArrivedIsHome(Next(st.pos, m).at, Black);
    assert Next(st.pos, m).side == Opposite(st.pos.side);
    assert Make(keys, st, m).stack[|st.stack|] == Record(st, m);
    DecidedMove(keys, j, st, m, depth, ply, -(MATE - ply - 1));
  }

  /** Heir: a side without a king that has crowned its heir already, or has no pawn to crown, has lost. */
  lemma HeirBeaten(keys: Keys, j: Judge, st: State, m: Move, depth: int, ply: nat)
    requires Judged(j) && ply + 1 < MAX_PLY && st.pos.mod == Heir && NewHash(Make(keys, st, m))
    requires var q, them := Next(st.pos, m), Opposite(st.pos.side);
             NoKing(q.at, them) && (Crowned(q, them) || NoPawn(q.at, them))
    ensures Score(keys, j, st, m, depth, ply) == MATE - ply - 1
  {
    NewIsNot(Make(keys, st, m));
    hide Repeated, NewHash, NoKing, NoPawn, AfterMove, Hash;
    var q, them := Next(st.pos, m), Opposite(st.pos.side);
    NoKingAtAll(q.at, them);
    NoPawnAtAll(q.at, them);
    assert q.side == them && HeirLost(q);
    hide HeirLost;
    DecidedMove(keys, j, st, m, depth, ply, -(MATE - ply - 1));
  }

  /** Crowning an heir wins, and so does leaving the other side short; being short oneself, when the other is not,
      loses. */
  lemma SuccessionDecided(keys: Keys, j: Judge, st: State, m: Move, depth: int, ply: nat)
    requires Judged(j) && ply + 1 < MAX_PLY && st.pos.mod == Succession && NewHash(Make(keys, st, m))
    ensures var q, us, them := Next(st.pos, m), st.pos.side, Opposite(st.pos.side);
            && (Crowned(q, us) || Lacking(q, them) ==> Score(keys, j, st, m, depth, ply) == MATE - ply - 1)
            && (!Crowned(q, us) && !Lacking(q, them) && Lacking(q, us) ==>
                  Score(keys, j, st, m, depth, ply) == -(MATE - ply - 1))
  {
    NewIsNot(Make(keys, st, m));
    hide Repeated, NewHash, NoPawn, AfterMove, Hash;
    var q, us, them := Next(st.pos, m), st.pos.side, Opposite(st.pos.side);
    NoPawnAtAll(q.at, us);
    NoPawnAtAll(q.at, them);
    assert q.side == them && q.mod == Succession && Opposite(them) == us;
    if Crowned(q, us) || Lacking(q, them) {
      DecidedMove(keys, j, st, m, depth, ply, -(MATE - ply - 1));
    } else if Lacking(q, us) {
      DecidedMove(keys, j, st, m, depth, ply, MATE - ply - 1);
    }
  }

  // ---- What is searched, and how deep -----------------------------------------------------------------

  /** The other side's king is attackable after the move, where check counts. */
  ghost predicate Checks(p: Pos, m: Move) {
    var q, them := Next(p, m), Opposite(p.side);
    CheckCounts(q, them) && Exposed(q, them)
  }

  /** Where no rule of a mod adds to it, the extension is one ply for giving check, for answering one at depth two
      or more, or for retaking on the square of the last capture at depth four or more, and none otherwise. */
  lemma ExtensionExactly(j: Judge, st: State, m: Move, depth: int)
    requires st.pos.mod in {Classic, Truce, SaveQueen, Succession}
    ensures var p, stack := st.pos, st.stack;
            var retakes := IsCapture(m) && stack != []
                           && IsCapture(stack[|stack| - 1].move) && stack[|stack| - 1].move.to == m.to;
            Extension(j, st, m, depth) ==
              if Checks(p, m) || (depth >= 2 && CheckCounts(p, p.side) && Exposed(p, p.side)) || (depth >= 4 && retakes)
              then 1 else 0
  {
    hide InCheck, CheckCounts, Exposed, SeeValue, AfterMove, RightsAfter, EpAfter, FrozenAfter, MovedAfter;
    var p, q := st.pos, Next(st.pos, m);
    CheckIsExposure(p, p.side);
    CheckIsExposure(q, Opposite(p.side));
    assert q.side == Opposite(p.side);
  }

  /** In every mod a move that gives check, or answers one at depth two or more, is extended. */
  lemma ChecksExtend(j: Judge, st: State, m: Move, depth: int)
    ensures Checks(st.pos, m) ==> Extension(j, st, m, depth) >= 1
    ensures depth >= 2 && CheckCounts(st.pos, st.pos.side) && Exposed(st.pos, st.pos.side) ==>
            Extension(j, st, m, depth) >= 1
  {
    hide InCheck, CheckCounts, Exposed, SeeValue, AfterMove, RightsAfter, EpAfter, FrozenAfter, MovedAfter;
    var p, q := st.pos, Next(st.pos, m);
    CheckIsExposure(p, p.side);
    CheckIsExposure(q, Opposite(p.side));
    assert q.side == Opposite(p.side) || q.side == p.side;
  }

  /** Out of check, quiescence looks at exactly the legal captures that do not lose material under best play. */
  lemma QuietLooksAt(j: Judge, p: Pos, qply: int, m: Move)
    requires p.mod != Mercenary && p.mod != FriendlyFire
    requires !(CheckCounts(p, p.side) && Exposed(p, p.side))
    ensures m in QMoves(j, p, qply) <==>
            m in LegalCaptures(p) && IsCapture(m) && FirstGain(p, m) - BestReply(SwapVictims(p, m)) >= 0
  {
    hide InCheck, CheckCounts, Exposed, LegalCaptures, SwapVictims, FirstGain, KeepPromising;
    CheckIsExposure(p, p.side);
    InKeepPromising(j, p, LegalCaptures(p), qply, m);
    if m in LegalCaptures(p) { CapturesOnly(p, m); }
    if IsCapture(m) { SeeSign(p, m); }
  }

  lemma CapturesOnly(p: Pos, m: Move)
    requires m in LegalCaptures(p)
    ensures IsCapture(m)
  {
    hide PseudoCaptures, PseudoMoves, KeepLegal, Legal;
    InKeepLegal(p, Clip(PseudoCaptures(p)), m);
    Captures.CapturesOfPseudoMoves(p);
    InCaptures(PseudoMoves(p), m);
  }

  /** In check it looks at all evasions at first, and at the captures among them later. */
  lemma QuietEvades(j: Judge, p: Pos, qply: int)
    requires CheckCounts(p, p.side) && Exposed(p, p.side)
    ensures QMoves(j, p, qply) == if qply < 4 then LegalMoves(p) else LegalCaptures(p)
  {
    hide InCheck, CheckCounts, Exposed, LegalMoves, LegalCaptures, KeepPromising;
    CheckIsExposure(p, p.side);
  }

  /** In every mod a capture that wins material under best play is looked at. */
  lemma QuietLooksAtWins(j: Judge, p: Pos, qply: int, m: Move)
    requires m in LegalCaptures(p) && IsCapture(m) && FirstGain(p, m) - BestReply(SwapVictims(p, m)) > 0
    requires !(CheckCounts(p, p.side) && Exposed(p, p.side))
    ensures m in QMoves(j, p, qply)
  {
    hide InCheck, CheckCounts, Exposed, LegalCaptures, SwapVictims, FirstGain, KeepPromising;
    CheckIsExposure(p, p.side);
    InKeepPromising(j, p, LegalCaptures(p), qply, m);
    SeeSign(p, m);
  }
}
