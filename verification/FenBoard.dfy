/** Reading and writing FEN on the mutable board. */
module FenBoard {
  import opened Types
  import opened Position
  import opened Making
  import opened Boards
  import opened Decimals
  import opened Fen

  // ---- Writing into a buffer -----------------------------------------------------------

  method PutChar(buf: array<char>, pos: nat, ch: char) returns (next: nat)
    requires pos < buf.Length
    modifies buf
    ensures next == pos + 1 && buf[..next] == old(buf[..pos]) + [ch]
  {
    buf[pos] := ch;
    next := pos + 1;
    assert buf[..next] == buf[..pos] + [ch];
  }

  method PutText(buf: array<char>, pos: nat, text: string) returns (next: nat)
    requires pos + |text| <= buf.Length
    modifies buf
    ensures next == pos + |text| && buf[..next] == old(buf[..pos]) + text
  {
    next := pos;
    ghost var before := buf[..pos];
    for i := 0 to |text|
      invariant next == pos + i && buf[..next] == before + text[..i]
    {
      next := PutChar(buf, next, text[i]);
      assert text[..i + 1] == text[..i] + [text[i]];
    }
    assert text[..|text|] == text;
  }

  method PutGap(buf: array<char>, pos: nat, empty: nat) returns (next: nat)
    requires empty <= 8 && pos + |Gap(empty)| <= buf.Length
    modifies buf
    ensures next == pos + |Gap(empty)| && buf[..next] == old(buf[..pos]) + Gap(empty)
  {
    next := pos;
    if empty > 0 {
      next := PutChar(buf, pos, Digit(empty));
    } else {
      assert buf[..pos] + "" == buf[..pos];
    }
  }

  /** One rank: count free squares, flush the count before each man. */
  method PutRank(b: Board, buf: array<char>, pos: nat, row: nat) returns (next: nat)
    requires b.Coherent() && row < 8 && Distinct(b, buf)
    requires pos + |RankText(Rank(b.At(), row), 0)| <= buf.Length
    modifies buf
    ensures next == pos + |RankText(Rank(b.At(), row), 0)|
    ensures buf[..next] == old(buf[..pos]) + RankText(Rank(b.At(), row), 0)
  {
    hide PieceChar, Gap;
    ghost var cells, before := Rank(b.At(), row), buf[..pos];
    next := pos;
    var empty := 0;
    var col := 0;
    assert cells[0..] == cells;
    while col < 8
      invariant 0 <= col <= 8 && 0 <= empty <= col
      invariant next <= buf.Length && cells == Rank(b.At(), row)
      invariant buf[..next] + RankText(cells[col..], empty) == before + RankText(cells, 0)
    {
      ghost var whole := before + RankText(cells, 0);
      assert |buf[..next] + RankText(cells[col..], empty)| == |whole|;
      var x := b.mailbox[8 * row + col];
      assert cells[col..][0] == x && cells[col..][1..] == cells[col + 1..];
      if x == Empty {
        empty := empty + 1;
      } else {
        ghost var rest := RankText(cells[col + 1..], 0);
        assert buf[..next] + (Gap(empty) + [PieceChar(x)] + rest) == whole;
        next := PutGap(buf, next, empty);
        next := PutChar(buf, next, PieceChar(x));
        empty := 0;
      }
      col := col + 1;
    }
    assert cells[8..] == [];
    next := PutGap(buf, next, empty);
  }

  /** The buffer is not part of the board. */
  ghost predicate Distinct(b: Board, buf: array<char>) {
    buf as object != b.mailbox as object && buf as object != b.pieces as object && buf as object != b.occupied as object
  }

  method PutRanks(b: Board, buf: array<char>) returns (pos: nat)
    requires b.Valid() && Distinct(b, buf) && |RanksText(b.At(), TOP)| <= buf.Length
    modifies buf
    ensures pos == |RanksText(b.At(), TOP)| && buf[..pos] == RanksText(b.At(), TOP)
  {
    hide Rank, RankText, Board.Coherent;
    ghost var at := b.At();
    pos := 0;
    var row := 7;
    assert buf[..0] + RanksText(at, TOP) == RanksText(at, TOP);
    while row > 0
      invariant 0 <= row <= 7 && pos <= buf.Length
      invariant b.Valid() && b.At() == at
      invariant buf[..pos] + RanksText(at, row) == RanksText(at, TOP)
    {
      ghost var text, rest := RankText(Rank(at, row), 0), RanksText(at, row - 1);
      assert RanksText(at, row) == text + ("/" + rest);
      assert buf[..pos] + (text + ("/" + rest)) == RanksText(at, TOP);
      assert pos + |text| + 1 + |rest| == |RanksText(at, TOP)|;
      pos := PutRank(b, buf, pos, row);
      pos := PutChar(buf, pos, '/');
      row := row - 1;
    }
    assert RanksText(at, 0) == RankText(Rank(at, 0), 0) by {
      assert RankText(Rank(at, 0), 0) + "" == RankText(Rank(at, 0), 0);
    }
    pos := PutRank(b, buf, pos, 0);
  }

  method PutCastling(r: Rights, buf: array<char>, pos: nat) returns (next: nat)
    requires pos + 4 <= buf.Length
    modifies buf
    ensures next == pos + |CastlingText(r)| && buf[..next] == old(buf[..pos]) + CastlingText(r)
  {
    next := pos;
    ghost var before := buf[..pos];
    if r == Rights(false, false, false, false) {
      next := PutChar(buf, next, '-');
    } else {
      if r.wk { next := PutChar(buf, next, 'K'); }
      if r.wq { next := PutChar(buf, next, 'Q'); }
      if r.bk { next := PutChar(buf, next, 'k'); }
      if r.bq { next := PutChar(buf, next, 'q'); }
    }
  }

  method PutEp(ep: SquareOrNone, buf: array<char>, pos: nat) returns (next: nat)
    requires pos + 2 <= buf.Length
    modifies buf
    ensures next == pos + |EpText(ep)| && buf[..next] == old(buf[..pos]) + EpText(ep)
  {
    if ep == NO_SQUARE {
      next := PutChar(buf, pos, '-');
    } else {
      next := PutChar(buf, pos, (97 + Col(ep)) as char);
      next := PutChar(buf, next, (49 + Row(ep)) as char);
    }
  }

  function FlagsText(side: Color, castling: Rights, ep: SquareOrNone): string {
    " " + SideText(side) + " " + CastlingText(castling) + " " + EpText(ep)
  }

  lemma FlagsJoined(before: string, s: string, c: string, e: string)
    ensures before + " " + s + " " + c + " " + e == before + (" " + s + " " + c + " " + e)
  {
  }

  lemma FenJoined(r: string, s: string, c: string, e: string, h: string, f: string)
    ensures r + (" " + s + " " + c + " " + e) + (" " + h + " " + f) ==
            r + " " + s + " " + c + " " + e + " " + h + " " + f
  {
  }

  method PutFlags(side: Color, castling: Rights, ep: SquareOrNone, buf: array<char>, pos: nat) returns (next: nat)
    requires pos + 10 <= buf.Length
    modifies buf
    ensures next == pos + |FlagsText(side, castling, ep)| &&
            buf[..next] == old(buf[..pos]) + FlagsText(side, castling, ep)
  {
    ghost var before := buf[..pos];
    assert |CastlingText(castling)| <= 4 && |EpText(ep)| <= 2;
    assert SideText(side) == [if side == White then 'w' else 'b'];
    hide CastlingText, EpText, SideText;
    FlagsJoined(before, SideText(side), CastlingText(castling), EpText(ep));
    next := PutChar(buf, pos, ' ');
    next := PutChar(buf, next, if side == White then 'w' else 'b');
    next := PutChar(buf, next, ' ');
    next := PutCastling(castling, buf, next);
    next := PutChar(buf, next, ' ');
    next := PutEp(ep, buf, next);
  }

  /** Print the position into a buffer of at least 128 bytes, terminated by a zero. */
  method GetFen(b: Board, buf: array<char>) returns (pos: nat)
    requires b.Valid() && Distinct(b, buf) && buf.Length >= 128
    requires 0 <= b.halfmove < 0x8000_0000 && 0 <= b.fullmove < 0x8000_0000
    modifies buf
    ensures pos < buf.Length && buf[..pos] == Print(b.Position()) && buf[pos] == '\0'
  {
    ghost var p := b.Position();
    FieldsFit(p);
    FenJoined(RanksText(p.at, TOP), SideText(p.side), CastlingText(p.castling), EpText(p.ep), Decimal(p.halfmove),
        Decimal(p.fullmove));
    hide RanksText, CastlingText, EpText, SideText, Decimal, Board.Coherent;
    pos := PutRanks(b, buf);
    pos := PutFlags(b.side, b.castling, b.ep, buf, pos);
    pos := PutText(buf, pos, " " + Decimal(b.halfmove) + " " + Decimal(b.fullmove));
    assert buf[..pos] == Print(p);
    buf[pos] := '\0';
  }

  lemma FieldsFit(p: Pos)
    requires 0 <= p.halfmove < 0x8000_0000 && 0 <= p.fullmove < 0x8000_0000
    ensures |RanksText(p.at, TOP)| <= 71 && |FlagsText(p.side, p.castling, p.ep)| <= 10
    ensures |Decimal(p.halfmove)| <= 10 && |Decimal(p.fullmove)| <= 10
  {
    hide RanksText, Decimal;
    RanksFit(p.at, TOP);
    TenDigits();
    NumFits(p.halfmove, 10);
    NumFits(p.fullmove, 10);
  }

  // ---- Reading -------------------------------------------------------------------------

  /** Nothing stands yet where the reader has still to go. */
  ghost predicate Ahead(at: Placement, row: int, col: int) {
    forall s: Square :: Row(s) < row || (Row(s) == row && Col(s) >= col) ==> at[s] == Empty
  }

  method ReadRanks(b: Board, fen: string) returns (i: nat)
    requires b.Valid() && b.At() == Bare()
    modifies b.mailbox, b.pieces, b.occupied, b`all
    ensures b.Valid() && i <= |fen| && (b.At(), fen[i..]) == ParseRanks(fen, TOP, 0, Bare())
  {
    hide Board.Coherent;
    var row, col := 7, 0;
    i := 0;
    assert fen[0..] == fen;
    while i < |fen| && fen[i] != ' '
      invariant 0 <= i <= |fen| && row <= 7 && 0 <= col
      invariant b.Valid() && Ahead(b.At(), row, col)
      invariant ParseRanks(fen[i..], row, col, b.At()) == ParseRanks(fen, TOP, 0, Bare())
    {
      var ch := fen[i];
      assert fen[i..][0] == ch && fen[i..][1..] == fen[i + 1..];
      i := i + 1;
      if ch == '/' {
        row, col := row - 1, 0;
      } else if '1' <= ch <= '8' {
        col := col + (ch as int - '0' as int);
      } else {
        var k := KindOf(ch);
        if k.Some? && row >= 0 && col < 8 {
          b.Place(Sq(row, col), ColorOf(ch), k.value);
        }
        col := col + 1;
      }
    }
  }

  method ReadField(fen: string, start: nat) returns (n: int, i: nat)
    requires start <= |fen|
    ensures i <= |fen| && (n, fen[i..]) == ParseField(fen[start..], 0)
  {
    n, i := 0, start;
    while i < |fen| && fen[i] != ' '
      invariant start <= i <= |fen|
      invariant ParseField(fen[i..], n) == ParseField(fen[start..], 0)
    {
      assert fen[i..][1..] == fen[i + 1..];
      n := 10 * n + (fen[i] as int - '0' as int);
      i := i + 1;
    }
  }

  method ReadDigits(fen: string, start: nat) returns (n: int)
    requires start <= |fen|
    ensures n == ParseDigits(fen[start..], 0)
  {
    n := 0;
    var i := start;
    while i < |fen| && '0' <= fen[i] <= '9'
      invariant start <= i <= |fen|
      invariant ParseDigits(fen[i..], n) == ParseDigits(fen[start..], 0)
    {
      assert fen[i..][1..] == fen[i + 1..];
      n := 10 * n + (fen[i] as int - '0' as int);
      i := i + 1;
    }
  }

  method ReadCastling(fen: string, start: nat) returns (r: Rights, i: nat)
    requires start <= |fen|
    ensures i <= |fen| && (r, fen[i..]) == ParseCastling(fen[start..], Rights(false, false, false, false))
  {
    r, i := Rights(false, false, false, false), start;
    while i < |fen| && fen[i] != ' '
      invariant start <= i <= |fen|
      invariant ParseCastling(fen[i..], r) == ParseCastling(fen[start..], Rights(false, false, false, false))
    {
      assert fen[i..][1..] == fen[i + 1..];
      r := WithRight(r, fen[i]);
      i := i + 1;
    }
  }

  method PassField(fen: string, start: nat) returns (i: nat)
    requires start <= |fen|
    ensures i <= |fen| && fen[i..] == SkipField(fen[start..])
  {
    i := start;
    while i < |fen| && fen[i] != ' '
      invariant start <= i <= |fen|
      invariant SkipField(fen[i..]) == SkipField(fen[start..])
    {
      assert fen[i..][1..] == fen[i + 1..];
      i := i + 1;
    }
  }

  method PassSpace(fen: string, start: nat) returns (i: nat)
    requires start <= |fen|
    ensures i <= |fen| && fen[i..] == SkipSpace(fen[start..])
  {
    i := start;
    if i < |fen| && fen[i] == ' ' {
      assert fen[i..][1..] == fen[i + 1..];
      i := i + 1;
    }
  }

  method ReadEp(fen: string, start: nat) returns (ep: int, i: nat)
    requires start <= |fen|
    ensures i <= |fen| && (ep, fen[i..]) == ParseEp(fen[start..])
  {
    ghost var s := fen[start..];
    assert |s| == |fen| - start && forall k :: 0 <= k < |s| ==> s[k] == fen[start + k];
    ep, i := NO_SQUARE, start;
    if i < |fen| && fen[i] == '-' {
      i := i + 1;
      assert fen[i..] == s[1..];
    } else if i < |fen| && 'a' <= fen[i] <= 'h' {
      var file := fen[i] as int - 'a' as int;
      i := i + 1;
      var rank := if i < |fen| then fen[i] else '\0';
      ep := 8 * (rank as int - '1' as int) + file;
      if i < |fen| {
        i := i + 1;
        assert fen[i..] == s[2..];
      } else {
        assert fen[i..] == "";
      }
    }
  }

  method ReadFlags(fen: string, start: nat) returns (side: Color, castling: Rights, ep: int, i: nat)
    requires start <= |fen|
    ensures i <= |fen| && (side, castling, ep, fen[i..]) == ParseFlags(fen[start..])
  {
    hide ParseCastling, ParseEp, SkipField, SkipSpace;
    i := PassSpace(fen, start);
    side := if i < |fen| && fen[i] == 'b' then Black else White;
    i := PassField(fen, i);
    i := PassSpace(fen, i);
    castling, i := ReadCastling(fen, i);
    i := PassSpace(fen, i);
    ep, i := ReadEp(fen, i);
  }

  method ReadClocks(fen: string, start: nat) returns (half: int, full: int)
    requires start <= |fen|
    ensures (half, full) == ParseClocks(fen[start..])
  {
    hide ParseField, ParseDigits, SkipSpace;
    var i := PassSpace(fen, start);
    half, i := ReadField(fen, i);
    i := PassSpace(fen, i);
    full := ReadDigits(fen, i);
    if full < 1 { full := 1; }
  }

  method Install(b: Board, side: Color, castling: Rights, ep: SquareOrNone, half: int, full: int)
    requires b.Valid()
    modifies b`side, b`castling, b`ep, b`halfmove, b`fullmove
    ensures b.Position() ==
            old(b.Position()).(side := side, castling := castling, ep := ep, halfmove := half, fullmove := full)
  {
    b.side, b.castling, b.ep := side, castling, ep;
    b.halfmove, b.fullmove := half, full;
  }

  /** Read a position. The en-passant square must be one of the board, for it indexes the hash keys. */
  method SetFen(b: Board, fen: string)
    requires b.Valid() && -1 <= Parse(fen).ep < 64
    modifies b, b.mailbox, b.pieces, b.occupied
    ensures b.Valid() && b.ply == 0 && b.hash == Hash(b.keys, b.Position())
    ensures var f := Parse(fen);
            b.Position() == EmptyPosition(Classic).(at := f.at, side := f.side, castling := f.castling, ep := f.ep,
                                                    halfmove := f.halfmove, fullmove := f.fullmove)
  {
    hide Board.Coherent, ParseRanks, ParseFlags, ParseClocks, Hash;
    b.Clear();
    var i := ReadRanks(b, fen);
    var side, castling, ep, j := ReadFlags(fen, i);
    var half, full := ReadClocks(fen, j);
    Install(b, side, castling, ep, half, full);
    b.Rehash();
  }

  /** Printing one board and reading the text into another carries the position over. */
  method CarryOver(b: Board, c: Board)
    requires b.Valid() && c.Valid() && 0 <= b.halfmove < 0x8000_0000 && 1 <= b.fullmove < 0x8000_0000
    requires b != c && b.mailbox != c.mailbox && b.pieces != c.pieces && b.occupied != c.occupied
    requires b.mailbox as object != c.occupied as object
    modifies c, c.mailbox, c.pieces, c.occupied
    ensures c.Valid() && c.ply == 0
    ensures var p := old(b.Position());
            c.Position() == EmptyPosition(Classic).(at := p.at, side := p.side, castling := p.castling, ep := p.ep,
                                                    halfmove := p.halfmove, fullmove := p.fullmove)
  {
    hide Print, Parse, Board.Coherent, Hash;
    ghost var p := b.Position();
    var buf := new char[128];
    var n := GetFen(b, buf);
    RoundTrip(p);
    SetFen(c, buf[..n]);
  }
}
