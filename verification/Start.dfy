/** The start position: its text, its soundness, and what follows for whole games. */
module Start {
  import opened Types
  import opened Position
  import opened Making
  import opened Boards
  import opened Rules
  import opened Reachable
  import opened Totals
  import opened Runs
  import opened KingsBattleRuns
  import opened TruceRuns
  import opened Decimals
  import opened Fen
  import opened FenBoard

  const WHITE_HALF := "8" + "/" + ("8" + "/" + ("PPPPPPPP" + "/" + "RNBQKBNR"))
  const START_RANKS := "rnbqkbnr" + "/" + ("pppppppp" + "/" + ("8" + "/" + ("8" + "/" + WHITE_HALF)))
  const START_TEXT := START_RANKS + " w KQkq - 0 1"

  const BACK_RANK: seq<Kind> := [Rook, Knight, Bishop, Queen, King, Bishop, Knight, Rook]

  function StartMan(s: int): Piece
    requires 0 <= s < 64
  {
    if s < 8 then Man(White, BACK_RANK[s])
    else if s < 16 then Man(White, Pawn)
    else if s < 48 then Empty
    else if s < 56 then Man(Black, Pawn)
    else Man(Black, BACK_RANK[s - 56])
  }

  function StartPlacement(): Placement { seq(64, s requires 0 <= s < 64 => StartMan(s)) }

  function StartPosition(mod: Mod): Pos {
    Pos(StartPlacement(), White, Rights(true, true, true, true), NO_SQUARE, 0, 1, mod,
        false, false, false, {}, {}, false, 0)
  }

  // ---- Its text -----------------------------------------------------------------------

  lemma {:induction false} FullRank(cells: seq<Piece>)
    requires |cells| <= 8 && forall i :: 0 <= i < |cells| ==> cells[i].Man?
    ensures |RankText(cells, 0)| == |cells|
    ensures forall i :: 0 <= i < |cells| ==> RankText(cells, 0)[i] == PieceChar(cells[i])
  {
    hide PieceChar;
    if cells != [] {
      FullRank(cells[1..]);
      assert RankText(cells, 0) == [PieceChar(cells[0])] + RankText(cells[1..], 0);
    }
  }

  lemma {:induction false} EmptyRank(cells: seq<Piece>, empty: nat)
    requires empty + |cells| <= 8 && 0 < empty + |cells| && forall i :: 0 <= i < |cells| ==> cells[i] == Empty
    ensures RankText(cells, empty) == [Digit(empty + |cells|)]
    decreases |cells|
  {
    if cells != [] { EmptyRank(cells[1..], empty + 1); }
  }

  lemma StartRank(row: nat)
    requires row < 8
    ensures RankText(Rank(StartPlacement(), row), 0) ==
            if row == 0 then "RNBQKBNR" else if row == 1 then "PPPPPPPP" else if row < 6 then "8"
            else if row == 6 then "pppppppp" else "rnbqkbnr"
  {
    if row == 0 {
      OfficersText(0, "RNBQKBNR", White);
    } else if row == 1 {
      PawnsText(1, "PPPPPPPP", White);
    } else if row == 6 {
      PawnsText(6, "pppppppp", Black);
    } else if row == 7 {
      OfficersText(7, "rnbqkbnr", Black);
    } else {
      RankCells(row);
      hide RankText, Rank, StartPlacement;
      EmptyRank(Rank(StartPlacement(), row), 0);
    }
  }

  lemma OfficersText(row: nat, text: string, c: Color)
    requires row == (if c == White then 0 else 7) && |text| == 8
    requires forall i :: 0 <= i < 8 ==> text[i] == PieceChar(Man(c, BACK_RANK[i]))
    ensures RankText(Rank(StartPlacement(), row), 0) == text
  {
    hide RankText, Rank, StartPlacement, PieceChar;
    RankCells(row);
    FullRank(Rank(StartPlacement(), row));
  }

  lemma PawnsText(row: nat, text: string, c: Color)
    requires row == (if c == White then 1 else 6) && |text| == 8
    requires forall i :: 0 <= i < 8 ==> text[i] == PieceChar(Man(c, Pawn))
    ensures RankText(Rank(StartPlacement(), row), 0) == text
  {
    hide RankText, Rank, StartPlacement, PieceChar;
    RankCells(row);
    FullRank(Rank(StartPlacement(), row));
  }

  lemma RankCells(row: nat)
    requires row < 8
    ensures forall i :: 0 <= i < 8 ==> Rank(StartPlacement(), row)[i] == StartMan(8 * row + i)
  {
    hide StartMan;
    var at := StartPlacement();
    forall i | 0 <= i < 8 ensures Rank(at, row)[i] == StartMan(8 * row + i) {
      assert Rank(at, row)[i] == at[8 * row + i];
    }
  }

  /** One more rank on top of the ranks already written. */
  lemma AddRank(at: Placement, row: nat, top: string, below: string)
    requires 0 < row < 8 && RankText(Rank(at, row), 0) == top && RanksText(at, row - 1) == below
    ensures RanksText(at, row) == top + "/" + below
  {
    hide RankText, Rank;
  }

  lemma WhiteHalf()
    ensures RanksText(StartPlacement(), 3) == WHITE_HALF
  {
    hide RankText, Rank, StartPlacement;
    var at := StartPlacement();
    StartRank(0);
    StartRank(1);
    StartRank(2);
    StartRank(3);
    assert RanksText(at, 0) == "RNBQKBNR";
    hide RanksText;
    AddRank(at, 1, "PPPPPPPP", "RNBQKBNR");
    AddRank(at, 2, "8", "PPPPPPPP" + "/" + "RNBQKBNR");
    AddRank(at, 3, "8", "8" + "/" + ("PPPPPPPP" + "/" + "RNBQKBNR"));
  }

  lemma AllRanks()
    ensures RanksText(StartPlacement(), 7) == START_RANKS
  {
    hide RankText, Rank, StartPlacement, RanksText;
    var at := StartPlacement();
    WhiteHalf();
    StartRank(4);
    StartRank(5);
    StartRank(6);
    StartRank(7);
    AddRank(at, 4, "8", WHITE_HALF);
    AddRank(at, 5, "8", "8" + "/" + WHITE_HALF);
    AddRank(at, 6, "pppppppp", "8" + "/" + ("8" + "/" + WHITE_HALF));
    AddRank(at, 7, "rnbqkbnr", "pppppppp" + "/" + ("8" + "/" + ("8" + "/" + WHITE_HALF)));
  }

  /** The engine's start text prints, and so parses to, the start position. */
  lemma StartTextParses(mod: Mod)
    ensures Print(StartPosition(mod)) == START_TEXT
    ensures var p := StartPosition(mod);
            Parse(START_TEXT) == Parsed(p.at, p.side, p.castling, p.ep, p.halfmove, p.fullmove)
  {
    hide RanksText, Parse;
    AllRanks();
    RoundTrip(StartPosition(mod));
  }

  /** Set up a game. The mod is set after hashing; it is not hashed, so the hash stays right. */
  method Init(b: Board, mod: Mod)
    requires b.Valid()
    modifies b, b.mailbox, b.pieces, b.occupied
    ensures b.Valid() && b.ply == 0 && b.Position() == StartPosition(mod) && b.hash == Hash(b.keys, b.Position())
  {
    hide Board.Coherent, Parse, HashColors;
    StartTextParses(mod);
    SetFen(b, START_TEXT);
    b.mod := mod;
  }

  // ---- What follows for whole games ----------------------------------------------------

  /** The start position is sound in every mod, and playable in all but Heir. */
  lemma StartSound(mod: Mod)
    ensures Sound(StartPosition(mod)) && (mod != Heir ==> Playable(StartPosition(mod)))
  {
  }

  /** The burden of the first n squares of the start position. */
  function StartBurdenUpto(n: nat): nat {
    if n <= 8 then n else if n <= 16 then 8 + 7 * (n - 8) else if n <= 48 then 64
    else if n <= 56 then 64 + 7 * (n - 48) else 120 + (n - 56)
  }

  lemma {:induction false} StartBurden(n: nat)
    requires n <= 64
    ensures Total(StartPlacement()[..n], Burden) == StartBurdenUpto(n)
  {
    if n > 0 {
      StartBurden(n - 1);
      assert StartPlacement()[..n][..n - 1] == StartPlacement()[..n - 1];
      assert StartPlacement()[..n][n - 1] == StartMan(n - 1);
    }
  }

  /** King's Battle from the start: phase 1 has at most 773 plies, and while it lasts every officer on
      the board is on its start square and the fifty-move clock is the idle-king count, at most five. */
  lemma KingsBattleFromStart(ms: seq<Move>)
    requires Run(StartPosition(KingsBattle), ms) && Locked(After(StartPosition(KingsBattle), ms))
    ensures |ms| <= 773
    ensures Phase1Safe(After(StartPosition(KingsBattle), ms), StartPlacement())
  {
    hide Run, After;
    var p := StartPosition(KingsBattle);
    StartBurden(64);
    assert StartPlacement()[..64] == StartPlacement();
    Phase1Bounded(p, ms);
    Phase1IsSafe(p, ms, StartPlacement());
  }

  /** A whole game from the start, in either phase, has at most one bonus ply. */
  lemma BonusFromStart(ms: seq<Move>)
    ensures BonusPlies(StartPosition(KingsBattle), ms) <= 1
  {
    hide BonusPlies;
    AtMostOneBonus(StartPosition(KingsBattle), ms);
  }

  /** A game from the start in any mod, Heir included, is sound throughout as long as no king is taken. */
  lemma SoundFromStart(mod: Mod, ms: seq<Move>)
    requires Run(StartPosition(mod), ms) && forall m :: m in ms ==> m.captured != Some(King)
    ensures SoundAlong(StartPosition(mod), ms)
  {
    hide Run, SoundAlong, StrandsNone;
    StartSound(mod);
    NoKingStrandsNone(StartPosition(mod), ms);
    RunSoundExactly(StartPosition(mod), ms);
  }

  lemma {:induction false} NoKingStrandsNone(p: Pos, ms: seq<Move>)
    requires Sound(p) && Run(p, ms) && forall m :: m in ms ==> m.captured != Some(King)
    ensures StrandsNone(p, ms)
    decreases |ms|
  {
    hide Sound, Pseudo, Next, StrandsRight;
    if ms != [] {
      SoundKeptExactly(p, ms[0]);
      NoKingStrandsNone(Next(p, ms[0]), ms[1..]);
    }
  }

  /** How many men stand on the first n squares of the start position. */
  lemma {:induction false} StartMenUpto(at: Placement, n: nat)
    requires n <= 64 && at == StartPlacement()
    ensures |set s: Square | s < n && at[s] != Empty| == if n <= 16 then n else if n <= 48 then 16 else n - 32
  {
    var men := set s: Square | s < n && at[s] != Empty;
    if n > 0 {
      StartMenUpto(at, n - 1);
      var fewer := set s: Square | s < n - 1 && at[s] != Empty;
      assert at[n - 1] == StartMan(n - 1);
      assert men == if at[n - 1] == Empty then fewer else fewer + {n - 1};
    } else {
      assert men == {};
    }
  }

  lemma StartMen()
    ensures |All(StartPlacement())| == 32
    ensures Of(StartPlacement(), White, King) == {4} && Of(StartPlacement(), Black, King) == {60}
  {
    var at := StartPlacement();
    StartMenUpto(at, 64);
    assert All(at) == set s: Square | s < 64 && at[s] != Empty;
  }

  /** A truce called in the start position has at most 32 plies, keeps all 32 men on the board, and no
      man that has moved moves again. */
  lemma TruceFromStart(before: seq<Move>, after: seq<Move>)
    requires var p := StartPosition(Truce).(truceActive := true); Run(p, before) && Run(After(p, before), after)
    ensures var p := StartPosition(Truce).(truceActive := true); var q := After(p, before);
            && |All(q.at)| == 32 && |before| + |Unfrozen(q)| <= 32 && MarkedStay(q, After(q, after))
  {
    hide Run, After, Next, Pseudo;
    var p := StartPosition(Truce).(truceActive := true);
    StartMen();
    StartSound(Truce);
    TruceBounded(p, before);
    TruceBoundedByMen(p, before);
    RooksUnmarkedAfter(p, before);
    NothingMovesTwice(After(p, before), after);
  }

  lemma {:induction false} RooksUnmarkedAfter(p: Pos, ms: seq<Move>)
    requires InProgress(p) && MarksOnMen(p) && OneKingEach(p) && RooksUnmarked(p) && Run(p, ms)
    ensures InProgress(After(p, ms)) && MarksOnMen(After(p, ms)) && RooksUnmarked(After(p, ms))
    decreases |ms|
  {
    hide Pseudo, Next, InProgress, RooksUnmarked, OneKing;
    if ms != [] {
      assert p.side == White || p.side == Black;
      TruceStep(p, ms[0]);
      RooksUnmarkedKept(p, ms[0]);
      RooksUnmarkedAfter(Next(p, ms[0]), ms[1..]);
    }
  }
}
