/** The text after 1. e4, one of the examples in section 16.1 of the PGN Standard. */
module StandardText {
  import opened Types
  import opened Position
  import opened Making
  import opened Decimals
  import opened Fen
  import opened Start

  const E4: Move := Simple(12, 28, Pawn)

  const WHITE_RANKS := "4P3" + "/" + ("8" + "/" + ("PPPP1PPP" + "/" + "RNBQKBNR"))
  const E4_RANKS := "rnbqkbnr" + "/" + ("pppppppp" + "/" + ("8" + "/" + ("8" + "/" + WHITE_RANKS)))
  const E4_TEXT := E4_RANKS + " b KQkq e3 0 1"

  function E4Placement(): Placement { StartPlacement()[12 := Empty][28 := Man(White, Pawn)] }

  lemma ManFirst(cells: seq<Piece>)
    requires cells != [] && |cells| <= 8 && cells[0].Man?
    ensures RankText(cells, 0) == [PieceChar(cells[0])] + RankText(cells[1..], 0)
  {
    hide PieceChar;
    assert "" + [PieceChar(cells[0])] == [PieceChar(cells[0])];
  }

  lemma ManAfterGap(cells: seq<Piece>, gap: nat)
    requires cells != [] && 0 < gap && gap + |cells| <= 8 && cells[0].Man?
    ensures RankText(cells, gap) == [Digit(gap)] + [PieceChar(cells[0])] + RankText(cells[1..], 0)
  {
    hide PieceChar;
  }

  lemma {:induction false} GapFirst(cells: seq<Piece>, n: nat, gap: nat)
    requires n <= |cells| && gap + |cells| <= 8 && forall i :: 0 <= i < n ==> cells[i] == Empty
    ensures RankText(cells, gap) == RankText(cells[n..], gap + n)
    decreases n
  {
    if n > 0 {
      GapFirst(cells[1..], n - 1, gap + 1);
      assert cells[1..][n - 1..] == cells[n..];
    } else {
      assert cells[0..] == cells;
    }
  }

  /** Seven pawns around a gap. */
  lemma PawnRankText(cells: seq<Piece>)
    requires |cells| == 8 && cells[4] == Empty && forall i :: 0 <= i < 8 && i != 4 ==> cells[i] == Man(White, Pawn)
    ensures RankText(cells, 0) == "PPPP1PPP"
  {
    hide RankText;
    FullRank(cells[6..]);
    var tail := RankText(cells[6..], 0);
    assert tail == "PP";
    ManAfterGap(cells[5..], 1);
    assert cells[5..][1..] == cells[6..];
    GapFirst(cells[4..], 1, 0);
    assert cells[4..][1..] == cells[5..];
    assert RankText(cells[4..], 0) == "1PPP";
    ManFirst(cells[3..]);
    assert cells[3..][1..] == cells[4..];
    ManFirst(cells[2..]);
    assert cells[2..][1..] == cells[3..];
    assert RankText(cells[2..], 0) == "PP1PPP";
    ManFirst(cells[1..]);
    assert cells[1..][1..] == cells[2..];
    ManFirst(cells);
  }

  /** One pawn on an empty rank. */
  lemma LonePawnText(cells: seq<Piece>)
    requires |cells| == 8 && cells[4] == Man(White, Pawn) && forall i :: 0 <= i < 8 && i != 4 ==> cells[i] == Empty
    ensures RankText(cells, 0) == "4P3"
  {
    hide RankText;
    EmptyRank(cells[5..], 0);
    GapFirst(cells, 4, 0);
    ManAfterGap(cells[4..], 4);
    assert cells[4..][1..] == cells[5..];
  }

  lemma E4Rank(row: nat)
    requires row < 8
    ensures RankText(Rank(E4Placement(), row), 0) ==
            if row == 1 then "PPPP1PPP" else if row == 3 then "4P3"
            else RankText(Rank(StartPlacement(), row), 0)
  {
    var at, start := E4Placement(), StartPlacement();
    hide RankText;
    if row == 1 || row == 3 {
      RankCells(row);
      forall i | 0 <= i < 8 ensures Rank(at, row)[i] == if i == 4 then (if row == 1 then Empty else Man(White, Pawn))
                                                       else StartMan(8 * row + i) {
        assert Rank(at, row)[i] == at[8 * row + i];
      }
      if row == 1 { PawnRankText(Rank(at, row)); } else { LonePawnText(Rank(at, row)); }
    } else {
      assert Rank(at, row) == Rank(start, row);
    }
  }

  lemma WhiteSide()
    ensures RanksText(E4Placement(), 3) == WHITE_RANKS
  {
    hide RankText, Rank, StartPlacement, E4Placement;
    var at := E4Placement();
    E4Rank(0);
    E4Rank(1);
    E4Rank(2);
    E4Rank(3);
    StartRank(0);
    StartRank(2);
    assert RanksText(at, 0) == "RNBQKBNR";
    hide RanksText;
    AddRank(at, 1, "PPPP1PPP", "RNBQKBNR");
    AddRank(at, 2, "8", "PPPP1PPP" + "/" + "RNBQKBNR");
    AddRank(at, 3, "4P3", "8" + "/" + ("PPPP1PPP" + "/" + "RNBQKBNR"));
  }

  lemma BothSides()
    ensures RanksText(E4Placement(), 7) == E4_RANKS
  {
    hide RankText, Rank, StartPlacement, RanksText, E4Placement;
    var at := E4Placement();
    WhiteSide();
    E4Rank(4);
    E4Rank(5);
    E4Rank(6);
    E4Rank(7);
    StartRank(4);
    StartRank(5);
    StartRank(6);
    StartRank(7);
    AddRank(at, 4, "8", WHITE_RANKS);
    AddRank(at, 5, "8", "8" + "/" + WHITE_RANKS);
    AddRank(at, 6, "pppppppp", "8" + "/" + ("8" + "/" + WHITE_RANKS));
    AddRank(at, 7, "rnbqkbnr", "pppppppp" + "/" + ("8" + "/" + ("8" + "/" + WHITE_RANKS)));
  }

  function E4Position(): Pos {
    Pos(E4Placement(), Black, Rights(true, true, true, true), 20, 0, 1, Classic, false, false, false, {}, {}, false, 0)
  }

  /** What the move does to a Classic position. */
  lemma E4Step(p: Pos)
    requires p.mod == Classic && p.side == White && p.kbIdle == 0 && !p.kbUnlocked
    ensures Next(p, E4) ==
            Pos(p.at[12 := Empty][28 := Man(White, Pawn)], Black, p.castling, 20, 0, p.fullmove, Classic,
                p.heirWhite, p.heirBlack, p.truceActive, p.frozen, p.ffMoved, false, 0)
  {
    assert AfterMove(p, E4) == p.at[12 := Empty][28 := Man(White, Pawn)];
    assert RightsAfter(p, E4) == p.castling;
    assert EpAfter(p, E4) == 20 by {
      assert Row(12) == 1 && Row(28) == 3 && Col(12) == 4 && Sq(2, 4) == 20;
    }
    hide AfterMove, RightsAfter, EpAfter;
  }

  lemma E4Makes()
    ensures Next(StartPosition(Classic), E4) == E4Position()
  {
    hide Next, StartPlacement;
    E4Step(StartPosition(Classic));
  }

  lemma E4Prints()
    ensures Print(E4Position()) == E4_TEXT
  {
    hide RanksText, E4Placement;
    BothSides();
    FieldsRead();
    FieldsJoin(E4_RANKS);
    hide SideText, EpText, Decimal, CastlingText;
  }

  lemma FieldsRead()
    ensures SideText(Black) == "b" && EpText(20) == "e3" && Decimal(0) == "0" && Decimal(1) == "1"
    ensures CastlingText(Rights(true, true, true, true)) == "KQkq"
  {
  }

  lemma FieldsJoin(r: string)
    ensures r + " " + "b" + " " + "KQkq" + " " + "e3" + " " + "0" + " " + "1" == r + " b KQkq e3 0 1"
  {
    assert " b KQkq e3 0 1" == " " + "b" + " " + "KQkq" + " " + "e3" + " " + "0" + " " + "1";
  }

  /** Making the move on the start position and printing gives the standard's text, and reading it gives the
      position back. */
  lemma E4TextExactly()
    ensures var q := Next(StartPosition(Classic), E4); q == E4Position() && Print(q) == E4_TEXT
    ensures Parse(E4_TEXT) == Parsed(E4Placement(), Black, Rights(true, true, true, true), 20, 0, 1)
  {
    E4Makes();
    E4Prints();
    hide Parse, Next, E4Placement, Print;
    RoundTrip(E4Position());
  }
}
