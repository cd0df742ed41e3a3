/** Forsyth-Edwards Notation (section 16.1 of the PGN Standard): printing and parsing. */
module Fen {
  import opened Types
  import opened Position
  import opened Decimals

  // ---- Printing -----------------------------------------------------------------------

  function Letter(k: Kind): char {
    match k
    case Pawn => 'p'
    case Knight => 'n'
    case Bishop => 'b'
    case Rook => 'r'
    case Queen => 'q'
    case King => 'k'
  }

  function Capital(k: Kind): char {
    match k
    case Pawn => 'P'
    case Knight => 'N'
    case Bishop => 'B'
    case Rook => 'R'
    case Queen => 'Q'
    case King => 'K'
  }

  function PieceChar(x: Piece): char
    requires x.Man?
  {
    if x.color == White then Capital(x.kind) else Letter(x.kind)
  }

  function Gap(empty: nat): string
    requires empty <= 8
  {
    if empty > 0 then [Digit(empty)] else ""
  }

  /** The rest of a rank, with `empty` free squares already seen. */
  function RankText(cells: seq<Piece>, empty: nat): string
    requires empty + |cells| <= 8
    decreases |cells|
  {
    if cells == [] then Gap(empty)
    else if cells[0] == Empty then RankText(cells[1..], empty + 1)
    else Gap(empty) + [PieceChar(cells[0])] + RankText(cells[1..], 0)
  }

  function Rank(at: Placement, row: int): (cells: seq<Piece>)
    requires 0 <= row < 8
    ensures |cells| == 8
  {
    at[8 * row..8 * row + 8]
  }

  /** The ranks from `row` down to the first. */
  function RanksText(at: Placement, row: nat): string
    requires row < 8
  {
    RankText(Rank(at, row), 0) + if row > 0 then "/" + RanksText(at, row - 1) else ""
  }

  function SideText(c: Color): string { if c == White then "w" else "b" }

  function CastlingText(r: Rights): string {
    if r == Rights(false, false, false, false) then "-"
    else
      (if r.wk then "K" else "") + (if r.wq then "Q" else "")
      + (if r.bk then "k" else "") + (if r.bq then "q" else "")
  }

  function EpText(ep: SquareOrNone): string {
    if ep == NO_SQUARE then "-" else [(97 + Col(ep)) as char, (49 + Row(ep)) as char]
  }

  const TOP: nat := 7

  function Print(p: Pos): string
    requires p.halfmove >= 0 && p.fullmove >= 0
  {
    RanksText(p.at, TOP) + " " + SideText(p.side) + " " + CastlingText(p.castling) + " " + EpText(p.ep) + " "
    + Decimal(p.halfmove) + " " + Decimal(p.fullmove)
  }

  // ---- Parsing ------------------------------------------------------------------------

  function KindOf(ch: char): Option<Kind> {
    match ch
    case 'p' => Some(Pawn) case 'P' => Some(Pawn)
    case 'n' => Some(Knight) case 'N' => Some(Knight)
    case 'b' => Some(Bishop) case 'B' => Some(Bishop)
    case 'r' => Some(Rook) case 'R' => Some(Rook)
    case 'q' => Some(Queen) case 'Q' => Some(Queen)
    case 'k' => Some(King) case 'K' => Some(King)
    case _ => None
  }

  function ColorOf(ch: char): Color { if 'A' <= ch <= 'Z' then White else Black }

  predicate FieldEnds(s: string) { s == "" || s[0] == ' ' }

  /** Placement: what is on the board when the field ends, and the text from there on. */
  function ParseRanks(s: string, row: int, col: nat, at: Placement): (Placement, string)
    requires row <= 7
    decreases |s|
  {
    if FieldEnds(s) then (at, s)
    else if s[0] == '/' then ParseRanks(s[1..], row - 1, 0, at)
    else if '1' <= s[0] <= '8' then ParseRanks(s[1..], row, col + (s[0] as int - '0' as int), at)
    else
      var k := KindOf(s[0]);
      var at' := if k.Some? && row >= 0 && col < 8 then at[Sq(row, col) := Man(ColorOf(s[0]), k.value)] else at;
      ParseRanks(s[1..], row, col + 1, at')
  }

  function SkipSpace(s: string): string { if s != "" && s[0] == ' ' then s[1..] else s }

  function SkipField(s: string): string { if FieldEnds(s) then s else SkipField(s[1..]) }

  function WithRight(r: Rights, ch: char): Rights {
    match ch
    case 'K' => r.(wk := true)
    case 'Q' => r.(wq := true)
    case 'k' => r.(bk := true)
    case 'q' => r.(bq := true)
    case _ => r
  }

  function ParseCastling(s: string, r: Rights): (Rights, string)
    decreases |s|
  {
    if FieldEnds(s) then (r, s) else ParseCastling(s[1..], WithRight(r, s[0]))
  }

  /** The en-passant field; its square is whatever file letter and following character make of it. At the
      end of the text that character is the terminator, which makes no square of the board. */
  function ParseEp(s: string): (int, string) {
    if s == "" then (NO_SQUARE, s)
    else if s[0] == '-' then (NO_SQUARE, s[1..])
    else if 'a' <= s[0] <= 'h' then
      var rank := if |s| >= 2 then s[1] else '\0';
      (8 * (rank as int - '1' as int) + (s[0] as int - 'a' as int), if |s| >= 2 then s[2..] else "")
    else (NO_SQUARE, s)
  }

  /** Every character of the field counts as a digit. */
  function ParseField(s: string, n: int): (int, string)
    decreases |s|
  {
    if FieldEnds(s) then (n, s) else ParseField(s[1..], 10 * n + (s[0] as int - '0' as int))
  }

  function ParseDigits(s: string, n: int): int
    decreases |s|
  {
    if s == "" || !('0' <= s[0] <= '9') then n else ParseDigits(s[1..], 10 * n + (s[0] as int - '0' as int))
  }

  datatype Parsed = Parsed(at: Placement, side: Color, castling: Rights, ep: int, halfmove: int, fullmove: int)

  /** Side, rights and en-passant square, after the placement. */
  function ParseFlags(s: string): (Color, Rights, int, string) {
    var s1 := SkipSpace(s);
    var side := if s1 != "" && s1[0] == 'b' then Black else White;
    var (castling, s2) := ParseCastling(SkipSpace(SkipField(s1)), Rights(false, false, false, false));
    var (ep, s3) := ParseEp(SkipSpace(s2));
    (side, castling, ep, s3)
  }

  /** Both clocks; a move number below one counts as one. */
  function ParseClocks(s: string): (int, int) {
    var (half, rest) := ParseField(SkipSpace(s), 0);
    var full := ParseDigits(SkipSpace(rest), 0);
    (half, if full < 1 then 1 else full)
  }

  function Parse(s: string): Parsed {
    var (at, s1) := ParseRanks(s, TOP, 0, Bare());
    var (side, castling, ep, s2) := ParseFlags(s1);
    var (half, full) := ParseClocks(s2);
    Parsed(at, side, castling, ep, half, full)
  }

  // ---- Placement round trip -------------------------------------------------------------

  /** The board with everything above (row, col) filled in, as the parser has it at that point. */
  function Upto(at: Placement, row: int, col: int): Placement {
    seq(64, s requires 0 <= s < 64 => if Row(s) > row || (Row(s) == row && Col(s) < col) then at[s] else Empty)
  }

  lemma LettersDistinct(x: Piece)
    requires x.Man?
    ensures var ch := PieceChar(x);
            KindOf(ch) == Some(x.kind) && ColorOf(ch) == x.color && ch != '/' && ch != ' ' && !('1' <= ch <= '8')
  {
  }

  lemma GapParses(empty: nat, tail: string, row: int, col: nat, at: Placement)
    requires empty <= 8 && row <= 7
    ensures ParseRanks(Gap(empty) + tail, row, col, at) == ParseRanks(tail, row, col + empty, at)
  {
    if empty > 0 {
      var text := Gap(empty) + tail;
      assert text[0] == Digit(empty) && text[1..] == tail;
    } else {
      assert Gap(empty) + tail == tail;
    }
  }

  lemma PieceParses(x: Piece, tail: string, row: int, col: nat, at: Placement)
    requires x.Man? && 0 <= row <= 7 && col < 8
    ensures ParseRanks([PieceChar(x)] + tail, row, col, at) == ParseRanks(tail, row, col + 1, at[Sq(row, col) := x])
  {
    LettersDistinct(x);
    var text := [PieceChar(x)] + tail;
    assert text[0] == PieceChar(x) && text[1..] == tail;
  }

  lemma UptoNext(at: Placement, row: int, col: int)
    requires 0 <= row < 8 && 0 <= col < 8
    ensures Upto(at, row, col + 1) == Upto(at, row, col)[Sq(row, col) := at[Sq(row, col)]]
    ensures at[Sq(row, col)] == Empty ==> Upto(at, row, col + 1) == Upto(at, row, col)
  {
    var next, filled := Upto(at, row, col + 1), Upto(at, row, col)[Sq(row, col) := at[Sq(row, col)]];
    forall s: Square ensures next[s] == filled[s] {
      assert Row(s) == row && Col(s) == col ==> s == Sq(row, col);
    }
    assert Upto(at, row, col)[Sq(row, col)] == Empty;
  }

  lemma ThreeParts(a: string, b: string, c: string, tail: string)
    ensures a + b + c + tail == a + (b + (c + tail))
  {
  }

  lemma {:induction false} RankParses(at: Placement, row: int, col: nat, empty: nat, tail: string)
    requires 0 <= row < 8 && empty <= col <= 8
    ensures ParseRanks(RankText(Rank(at, row)[col..], empty) + tail, row, col - empty, Upto(at, row, col))
            == ParseRanks(tail, row, 8, Upto(at, row, 8))
    decreases 8 - col
  {
    hide ParseRanks, Upto, PieceChar, Gap;
    var cells := Rank(at, row)[col..];
    if col == 8 {
      assert cells == [];
      GapParses(empty, tail, row, col - empty, Upto(at, row, col));
    } else {
      var x := at[Sq(row, col)];
      assert cells[0] == x && cells[1..] == Rank(at, row)[col + 1..];
      UptoNext(at, row, col);
      if x == Empty {
        RankParses(at, row, col + 1, empty + 1, tail);
      } else {
        var rest := RankText(cells[1..], 0) + tail;
        RankParses(at, row, col + 1, 0, tail);
        ThreeParts(Gap(empty), [PieceChar(x)], RankText(cells[1..], 0), tail);
        GapParses(empty, [PieceChar(x)] + rest, row, col - empty, Upto(at, row, col));
        PieceParses(x, rest, row, col, Upto(at, row, col));
      }
    }
  }

  lemma {:induction false} RanksParse(at: Placement, row: nat, tail: string)
    requires row < 8 && FieldEnds(tail)
    ensures ParseRanks(RanksText(at, row) + tail, row, 0, Upto(at, row, 0)) == (at, tail)
  {
    var rest := if row > 0 then "/" + RanksText(at, row - 1) + tail else tail;
    var text := RankText(Rank(at, row), 0);
    assert Rank(at, row)[0..] == Rank(at, row);
    assert RanksText(at, row) + tail == text + rest;
    RankParses(at, row, 0, 0, rest);
    if row > 0 {
      assert rest[0] == '/' && rest[1..] == RanksText(at, row - 1) + tail;
      assert Upto(at, row, 8) == Upto(at, row - 1, 0);
      RanksParse(at, row - 1, tail);
    } else {
      assert Upto(at, row, 8) == at;
    }
  }

  // ---- The other fields -------------------------------------------------------------------

  lemma {:induction false} FieldParses(n: nat, tail: string)
    ensures ParseField(Decimal(n) + tail, 0) == ParseField(tail, n)
  {
    if n < 10 {
      assert (Decimal(n) + tail)[1..] == tail;
    } else {
      var last := [Digit(n % 10)] + tail;
      assert Decimal(n) + tail == Decimal(n / 10) + last;
      FieldParses(n / 10, last);
      assert last[1..] == tail;
    }
  }

  lemma {:induction false} DigitsParse(n: nat, tail: string)
    ensures ParseDigits(Decimal(n) + tail, 0) == ParseDigits(tail, n)
  {
    if n < 10 {
      assert (Decimal(n) + tail)[1..] == tail;
    } else {
      var last := [Digit(n % 10)] + tail;
      assert Decimal(n) + tail == Decimal(n / 10) + last;
      DigitsParse(n / 10, last);
      assert last[1..] == tail;
    }
  }

  lemma CastlingParses(r: Rights, tail: string)
    requires FieldEnds(tail)
    ensures ParseCastling(CastlingText(r) + tail, Rights(false, false, false, false)) == (r, tail)
  {
    var none := Rights(false, false, false, false);
    if r == none {
      assert ("-" + tail)[1..] == tail;
    } else {
      hide ParseCastling;
      CastlingStops(r, tail);
      var t4 := (if r.bq then "q" else "") + tail;
      var t3 := (if r.bk then "k" else "") + t4;
      var t2 := (if r.wq then "Q" else "") + t3;
      Joined(if r.wk then "K" else "", if r.wq then "Q" else "", if r.bk then "k" else "",
             if r.bq then "q" else "", tail);
      RightParses(r.wk, 'K', none, t2);
      RightParses(r.wq, 'Q', none.(wk := r.wk), t3);
      RightParses(r.bk, 'k', none.(wk := r.wk, wq := r.wq), t4);
      RightParses(r.bq, 'q', none.(wk := r.wk, wq := r.wq, bk := r.bk), tail);
    }
  }

  lemma Joined(a: string, b: string, c: string, d: string, e: string)
    ensures a + b + c + d + e == a + (b + (c + (d + e)))
  {
  }

  lemma CastlingStops(r: Rights, tail: string)
    requires FieldEnds(tail)
    ensures ParseCastling(tail, r) == (r, tail)
  {
  }

  lemma RightParses(on: bool, ch: char, r: Rights, tail: string)
    requires ch != ' '
    ensures ParseCastling((if on then [ch] else "") + tail, r) ==
            ParseCastling(tail, if on then WithRight(r, ch) else r)
  {
    if on { assert ([ch] + tail)[1..] == tail; } else { assert "" + tail == tail; }
  }

  lemma EpParses(ep: SquareOrNone, tail: string)
    ensures ParseEp(EpText(ep) + tail) == (ep, tail)
  {
    var text := EpText(ep) + tail;
    if ep == NO_SQUARE {
      assert text[0] == '-' && text[1..] == tail;
    } else {
      assert text[0] == EpText(ep)[0] && text[1] == EpText(ep)[1] && text[2..] == tail;
    }
  }

  lemma SideParses(c: Color, tail: string)
    requires FieldEnds(tail)
    ensures SkipField(SideText(c) + tail) == tail
  {
    var text := SideText(c) + tail;
    assert text[0] == SideText(c)[0] && text[1..] == tail;
  }

  lemma SpaceSkips(tail: string)
    ensures SkipSpace(" " + tail) == tail
  {
    assert (" " + tail)[1..] == tail;
  }

  // ---- The whole record ----------------------------------------------------------------------

  /** Parsing what was printed gives back placement, side, rights, en-passant square and both clocks. */
  lemma RoundTrip(p: Pos)
    requires p.halfmove >= 0 && p.fullmove >= 1
    ensures Parse(Print(p)) == Parsed(p.at, p.side, p.castling, p.ep, p.halfmove, p.fullmove)
  {
    hide RanksText, ParseRanks, Decimal, ParseField, ParseDigits, ParseCastling, CastlingText, EpText, ParseEp,
        SkipField, SideText, Upto;
    var full := Decimal(p.fullmove);
    var half := " " + full;
    var ep := " " + (Decimal(p.halfmove) + half);
    var castling := " " + (EpText(p.ep) + ep);
    var side := " " + (CastlingText(p.castling) + castling);
    var ranks := " " + (SideText(p.side) + side);
    assert Print(p) == RanksText(p.at, TOP) + ranks;
    BareIsUpto(p.at);
    RanksParse(p.at, TOP, ranks);
    SpaceSkips(SideText(p.side) + side);
    SideFirst(p.side, side);
    SideParses(p.side, side);
    SpaceSkips(CastlingText(p.castling) + castling);
    CastlingParses(p.castling, castling);
    SpaceSkips(EpText(p.ep) + ep);
    EpParses(p.ep, ep);
    SpaceSkips(Decimal(p.halfmove) + half);
    FieldParses(p.halfmove, half);
    FieldStops(half, p.halfmove);
    SpaceSkips(full);
    DigitsParse(p.fullmove, "");
    DigitsStop(p.fullmove);
    assert full + "" == full;
  }

  lemma BareIsUpto(at: Placement)
    ensures Bare() == Upto(at, TOP, 0)
  {
  }

  lemma SideFirst(c: Color, tail: string)
    ensures var s := SideText(c) + tail; s != "" && (s[0] == 'b' <==> c == Black)
  {
  }

  lemma FieldStops(tail: string, n: int)
    requires FieldEnds(tail)
    ensures ParseField(tail, n) == (n, tail)
  {
  }

  lemma DigitsStop(n: int)
    ensures ParseDigits("", n) == n
  {
  }

  // ---- Length ------------------------------------------------------------------------------

  lemma {:induction false} RankFits(cells: seq<Piece>, empty: nat)
    requires empty + |cells| <= 8
    ensures |RankText(cells, empty)| <= |cells| + if empty > 0 then 1 else 0
    decreases |cells|
  {
    if cells != [] {
      RankFits(cells[1..], if cells[0] == Empty then empty + 1 else 0);
    }
  }

  lemma {:induction false} RanksFit(at: Placement, row: nat)
    requires row < 8
    ensures |RanksText(at, row)| <= 9 * row + 8
  {
    RankFits(Rank(at, row), 0);
    if row > 0 { RanksFit(at, row - 1); }
  }

  function TenTo(k: nat): nat { if k == 0 then 1 else 10 * TenTo(k - 1) }

  lemma {:induction false} NumFits(n: nat, k: nat)
    requires 1 <= k && n < TenTo(k)
    ensures |Decimal(n)| <= k
  {
    if n >= 10 { NumFits(n / 10, k - 1); }
  }

  /** With 32-bit clocks the text and its terminator fit the 128 bytes a caller must provide. */
  lemma PrintFits(p: Pos)
    requires 0 <= p.halfmove < 0x8000_0000 && 0 <= p.fullmove < 0x8000_0000
    ensures |Print(p)| + 1 <= 128
  {
    hide RanksText, Decimal;
    RanksFit(p.at, TOP);
    TenDigits();
    NumFits(p.halfmove, 10);
    NumFits(p.fullmove, 10);
  }

  lemma TenDigits()
    ensures TenTo(10) == 10_000_000_000
  {
    assert TenTo(5) == 100_000;
  }
}
