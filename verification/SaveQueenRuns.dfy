/** Save the Queen: queens are conserved but for two kinds of capture. */
module SaveQueenRuns {
  import opened Types
  import opened Position
  import opened Attacks
  import opened Making
  import opened Rules
  import opened Reachable
  import opened Totals
  import opened Runs

  /** The move takes a queen of the other side. */
  predicate TakesQueen(p: Pos, m: Move) {
    !m.ep && IsCapture(m) && p.at[m.to] == Man(Opposite(p.side), Queen)
  }

  /** ... and for good: an escaped queen, or one on her own prison square. */
  predicate QueenLost(p: Pos, m: Move) {
    var them := Opposite(p.side);
    TakesQueen(p, m) && (OwnHalf(m.to, them) || m.to == Prison(them))
  }

  /** A queen on her prison square is taken only by an escaped queen beside her; a prisoner elsewhere
      only while her prison is empty. Nothing promotes to a queen. */
  lemma QueenShape(p: Pos, m: Move)
    requires Pseudo(p, m) && p.mod == SaveQueen
    ensures m.promo != Some(Queen)
    ensures TakesQueen(p, m) && m.to == Prison(Opposite(p.side)) ==>
            m.piece == Queen && OwnHalf(m.from, p.side) && KingStep(m.from, m.to)
    ensures TakesQueen(p, m) && !QueenLost(p, m) ==> p.at[Prison(Opposite(p.side))] == Empty
  {
    hide MayCastle, WaySafe, CheckMatters, AwayFromHeir, Reaches, KingStep;
  }

  lemma ReprisonsExactly(p: Pos, m: Move)
    requires Pseudo(p, m) && Sound(p) && p.mod == SaveQueen
    ensures Reprisons(p, m) <==> TakesQueen(p, m) && !QueenLost(p, m)
    ensures Fits(p, m)
    ensures IsCapture(m) && Taken(p, m).0.Man? && Taken(p, m).0.kind == Queen ==> TakesQueen(p, m)
  {
    hide Pseudo, Fits, Sound;
    PseudoFits(p, m);
    QueenShape(p, m);
    if m.ep { SoundEp(p); EpVictim(p, m); } else { OwnQueenStays(p, m); }
  }

  lemma SoundEp(p: Pos)
    requires Sound(p)
    ensures EpSound(p)
  {
  }

  lemma OwnQueenStays(p: Pos, m: Move)
    requires Pseudo(p, m) && p.mod == SaveQueen && !m.ep
    ensures p.at[m.to].Man? ==> p.at[m.to].color != p.side
  {
    hide MayCastle, WaySafe, CheckMatters, AwayFromHeir, Reaches, KingStep, HeldQueen, MayBecome;
  }

  /** One move: no side gains a queen; one is lost exactly when she is taken in her own half, or on her
      prison square; any other capture of a queen puts her back in prison. */
  lemma QueensConserved(p: Pos, m: Move, c: Color)
    requires Pseudo(p, m) && Sound(p) && p.mod == SaveQueen
    ensures |Of(Next(p, m).at, c, Queen)| ==
            |Of(p.at, c, Queen)| - if QueenLost(p, m) && c != p.side then 1 else 0
    ensures TakesQueen(p, m) && !QueenLost(p, m) ==>
            Next(p, m).at[Prison(Opposite(p.side))] == Man(Opposite(p.side), Queen)
  {
    hide Pseudo, Fits, Sound, Reprisons, AfterMove, QueenLost, TakesQueen, RightsAfter, EpAfter, UnlockedAfter,
        IdleAfter;
    ReprisonsExactly(p, m);
    QueenShape(p, m);
    CountOf(p.at, c, Queen);
    CountOf(AfterMove(p, m), c, Queen);
    MoveTotal(p, m, Counts(c, Queen));
    QueenShift(p, m, c);
    if TakesQueen(p, m) && !QueenLost(p, m) {
      BackInPrison(p, m);
    }
  }

  lemma QueenShift(p: Pos, m: Move, c: Color)
    requires Fits(p, m)
    requires Reprisons(p, m) <==> TakesQueen(p, m) && !QueenLost(p, m)
    requires IsCapture(m) && Taken(p, m).0.Man? && Taken(p, m).0.kind == Queen ==> TakesQueen(p, m)
    ensures CaptureShift(p, m, Counts(c, Queen)) == if QueenLost(p, m) && c != p.side then -1 else 0
    ensures RookShift(m, Counts(c, Queen)) == 0
    ensures m.promo.Some? ==> m.piece == Pawn
  {
  }

  lemma BackInPrison(p: Pos, m: Move)
    requires Fits(p, m) && Reprisons(p, m)
    ensures AfterMove(p, m)[Prison(Opposite(p.side))] == Man(Opposite(p.side), Queen)
  {
  }

  /** The queens of side c taken for good along a run. */
  ghost function LostQueens(p: Pos, ms: seq<Move>, c: Color): nat
    decreases |ms|
  {
    if ms == [] then 0
    else (if QueenLost(p, ms[0]) && c != p.side then 1 else 0) + LostQueens(Next(p, ms[0]), ms[1..], c)
  }

  /** Over any game a side's queens at the start are those at the end and those lost; none appear. */
  lemma {:induction false} QueensConservedOverRuns(p: Pos, ms: seq<Move>, c: Color)
    requires Sound(p) && p.mod == SaveQueen && Run(p, ms)
    ensures |Of(After(p, ms).at, c, Queen)| + LostQueens(p, ms, c) == |Of(p.at, c, Queen)|
    decreases |ms|
  {
    hide Pseudo, Next, Sound, QueenLost, Of;
    if ms != [] {
      QueensConserved(p, ms[0], c);
      SoundKept(p, ms[0]);
      NextMod(p, ms[0]);
      QueensConservedOverRuns(Next(p, ms[0]), ms[1..], c);
    }
  }
}
