/** The vocabulary of the rules engine: colours, pieces, squares, moves and the
    packed 32-bit form of a move. */
module Types {

  datatype Option<+T> = None | Some(value: T)

  datatype Color = White | Black

  function Opposite(c: Color): Color { if c == White then Black else White }

  datatype Kind = Pawn | Knight | Bishop | Rook | Queen | King

  datatype Piece = Empty | Man(color: Color, kind: Kind)

  datatype Mod = Classic | Mercenary | Heir | Truce | FriendlyFire | KingsBattle | SaveQueen | Succession

  /** Squares are numbered 0..63 with a1 = 0 and h8 = 63. */
  type Square = s: int | 0 <= s < 64

  /** A square, or -1 for none. */
  type SquareOrNone = s: int | -1 <= s < 64

  const NO_SQUARE: SquareOrNone := -1

  function Abs(x: int): nat { if x < 0 then -x else x }

  function Row(s: Square): (r: int)
    ensures 0 <= r < 8
  { s / 8 }

  function Col(s: Square): (c: int)
    ensures 0 <= c < 8
  { s % 8 }

  predicate OnBoard(r: int, c: int) { 0 <= r < 8 && 0 <= c < 8 }

  function Sq(r: int, c: int): (s: Square)
    requires OnBoard(r, c)
    ensures Row(s) == r && Col(s) == c
  { r * 8 + c }

  /** A bitboard is the set of the squares whose bit is one. */
  type Bitboard = set<Square>

  /** Any other 64-bit word, too, is the set of its one bits; xor is symmetric difference. */
  type Word = set<Square>

  function Xor(a: Word, b: Word): Word { (a - b) + (b - a) }

  /** Castling rights, one flag a wing. */
  datatype Rights = Rights(wk: bool, wq: bool, bk: bool, bq: bool)

  /** The decoded form of a move. `captured` and `promo` are None where the encoded
      form holds PIECE_NONE. */
  datatype Move = Move(from: Square, to: Square, piece: Kind, captured: Option<Kind>,
                       castle: bool, ep: bool, promo: Option<Kind>)

  function Simple(from: Square, to: Square, k: Kind): Move {
    Move(from, to, k, None, false, false, None)
  }

  function Capture(from: Square, to: Square, k: Kind, captured: Kind): Move {
    Move(from, to, k, Some(captured), false, false, None)
  }

  function Promotion(from: Square, to: Square, captured: Option<Kind>, k: Kind): Move {
    Move(from, to, Pawn, captured, false, false, Some(k))
  }

  predicate IsCapture(m: Move) { m.captured.Some? }

  // ---- Packed moves ------------------------------------------------------

  function KindCode(k: Kind): (n: int)
    ensures 0 <= n < 6
  {
    match k
    case Pawn => 0
    case Knight => 1
    case Bishop => 2
    case Rook => 3
    case Queen => 4
    case King => 5
  }

  function CodeKind(n: int): Option<Kind> {
    if n == 0 then Some(Pawn) else if n == 1 then Some(Knight) else if n == 2 then Some(Bishop)
    else if n == 3 then Some(Rook) else if n == 4 then Some(Queen) else if n == 5 then Some(King)
    else None
  }

  function OptionCode(k: Option<Kind>): (n: int)
    ensures 0 <= n <= 6 && CodeKind(n) == k
  {
    if k.None? then 6 else KindCode(k.value)
  }

  function Bit(b: bool): (n: int)
    ensures 0 <= n <= 1 && (n == 1) == b
  { if b then 1 else 0 }

  /** The encoded word, least significant field first. The fields occupy disjoint bit ranges, so the
      bitwise or of the shifted fields is their sum. */
  function Encode(m: Move): nat {
    m.from + 64 * (m.to + 64 * (KindCode(m.piece) + 8 * (OptionCode(m.captured)
      + 8 * (Bit(m.castle) + 2 * (Bit(m.ep) + 2 * (Bit(m.promo.Some?) + 2 * OptionCode(m.promo)))))))
  }

  /** Field extraction by mask and shift; None where the piece field holds no kind. */
  function Decode(w: nat): Option<Move> {
    var (w1, w2) := (w / 64, w / 64 / 64);
    var (w3, w4) := (w2 / 8, w2 / 8 / 8);
    var (w5, w6) := (w4 / 2, w4 / 2 / 2);
    var piece := CodeKind(w2 % 8);
    if piece.None? then None
    else Some(Move(w % 64, w1 % 64, piece.value, CodeKind(w3 % 8), w4 % 2 == 1, w5 % 2 == 1,
                   if w6 % 2 == 1 then CodeKind(w6 / 2 % 8) else None))
  }

  lemma Cut64(lo: int, hi: int)
    requires 0 <= lo < 64
    ensures (lo + 64 * hi) / 64 == hi && (lo + 64 * hi) % 64 == lo
  {
  }

  lemma Cut8(lo: int, hi: int)
    requires 0 <= lo < 8
    ensures (lo + 8 * hi) / 8 == hi && (lo + 8 * hi) % 8 == lo
  {
  }

  lemma Cut2(lo: int, hi: int)
    requires 0 <= lo < 2
    ensures (lo + 2 * hi) / 2 == hi && (lo + 2 * hi) % 2 == lo
  {
  }

  /** The word without its two squares. */
  function UpperWord(m: Move): nat {
    KindCode(m.piece) + 8 * (OptionCode(m.captured)
      + 8 * (Bit(m.castle) + 2 * (Bit(m.ep) + 2 * (Bit(m.promo.Some?) + 2 * OptionCode(m.promo)))))
  }

  lemma LowerCuts(m: Move)
    ensures var w := Encode(m); w % 64 == m.from && w / 64 % 64 == m.to && w / 64 / 64 == UpperWord(m)
  {
    hide KindCode, OptionCode, Bit;
    Cut64(m.from, m.to + 64 * UpperWord(m));
    Cut64(m.to, UpperWord(m));
  }

  lemma UpperCuts(m: Move)
    ensures var w2 := UpperWord(m);
            var w4 := w2 / 8 / 8;
            && w2 % 8 == KindCode(m.piece) && w2 / 8 % 8 == OptionCode(m.captured)
            && w4 % 2 == Bit(m.castle) && w4 / 2 % 2 == Bit(m.ep)
            && w4 / 2 / 2 % 2 == Bit(m.promo.Some?) && w4 / 2 / 2 / 2 == OptionCode(m.promo)
  {
    hide KindCode, OptionCode, Bit;
    var w6 := Bit(m.promo.Some?) + 2 * OptionCode(m.promo);
    var w5 := Bit(m.ep) + 2 * w6;
    var w4 := Bit(m.castle) + 2 * w5;
    Cut8(KindCode(m.piece), OptionCode(m.captured) + 8 * w4);
    Cut8(OptionCode(m.captured), w4);
    Cut2(Bit(m.castle), w5);
    Cut2(Bit(m.ep), w6);
    Cut2(Bit(m.promo.Some?), OptionCode(m.promo));
  }

  /** Packing loses nothing. */
  lemma EncodeRoundTrip(m: Move)
    ensures Decode(Encode(m)) == Some(m)
  {
    LowerCuts(m);
    UpperCuts(m);
    hide Encode, UpperWord, KindCode, CodeKind;
    KindCoded(m.piece);
  }

  /** The word of a move is never MOVE_NONE (zero), and fits the 24 bits the layout reserves. */
  lemma EncodeInRange(m: Move)
    ensures 0 < Encode(m) < 0x100_0000
  {
    hide KindCode, OptionCode;
    NotNone(m);
  }

  lemma KindCoded(k: Kind)
    ensures CodeKind(KindCode(k)) == Some(k)
  {
  }

  /** Without a promotion the last field holds PIECE_NONE (six), with one its flag is set. */
  lemma NotNone(m: Move)
    ensures Bit(m.promo.Some?) + OptionCode(m.promo) > 0
  {
  }
}
