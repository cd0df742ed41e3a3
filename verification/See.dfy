/** Static exchange evaluation on the board. */
module See {
  import opened Types
  import opened Bitboards
  import opened Position
  import opened Attacks
  import opened AttackTables
  import opened Making
  import opened Boards
  import opened AttackLookup
  import opened Rules
  import opened Exchange

  /** What a man is worth in an exchange, by mod. */
  function Worth(mod: Mod, k: Kind): int {
    if k == Pawn && mod == Mercenary then 180
    else if k == Pawn && mod == Heir then 140
    else if k == King && mod == Heir then 250
    else if k == Queen && mod == SaveQueen then 1200
    else if k == Queen && mod == Succession then 1300
    else if k == Pawn && mod == Succession then 160
    else if k == King && mod == Succession then 700
    else match k
      case Pawn => 100
      case Knight => 320
      case Bishop => 330
      case Rook => 500
      case Queen => 900
      case King => 20000
  }

  function BothOf(at: Placement, k: Kind): Bitboard { Of(at, White, k) + Of(at, Black, k) }

  /** A man of either side on s bears on the square when only the men of occ stand in the way. */
  predicate BearsOn(p: Pos, s: Square, sq: Square, occ: Bitboard) {
    match p.at[s]
    case Empty => false
    case Man(c, k) =>
      match k
      case King => KingStep(s, sq)
      case Pawn => if p.mod == Mercenary then KingStep(s, sq) else PawnStep(c, s, sq)
      case Knight => KnightStep(s, sq)
      case Bishop => BishopReach(s, sq, occ)
      case Rook => RookReach(s, sq, occ)
      case Queen => BishopReach(s, sq, occ) || RookReach(s, sq, occ)
  }

  function AttackersTo(p: Pos, sq: Square, occ: Bitboard): Bitboard {
    set s: Square | s in occ && BearsOn(p, s, sq, occ)
  }

  /** All the men that bear on a square through an occupancy, found by looking outward from it. */
  method FindAttackers(b: Board, sq: Square, occ: Bitboard) returns (att: Bitboard)
    requires b.Coherent()
    ensures att == AttackersTo(b.Position(), sq, occ)
  {
    ghost var p := b.Position();
    att := KnightTargets(sq) * (b.pieces[0, KindCode(Knight)] + b.pieces[1, KindCode(Knight)]);
    att := att + KingTargets(sq) * (b.pieces[0, KindCode(King)] + b.pieces[1, KindCode(King)]);
    var diagonal := BishopAttacks(sq, occ);
    att := att + diagonal * (b.pieces[0, KindCode(Bishop)] + b.pieces[1, KindCode(Bishop)]
                             + b.pieces[0, KindCode(Queen)] + b.pieces[1, KindCode(Queen)]);
    var straight := RookAttacks(sq, occ);
    att := att + straight * (b.pieces[0, KindCode(Rook)] + b.pieces[1, KindCode(Rook)]
                             + b.pieces[0, KindCode(Queen)] + b.pieces[1, KindCode(Queen)]);
    if b.mod == Mercenary {
      att := att + KingTargets(sq) * (b.pieces[0, KindCode(Pawn)] + b.pieces[1, KindCode(Pawn)]);
    } else {
      att := att + PawnTargets(Black, sq) * b.pieces[0, KindCode(Pawn)];
      att := att + PawnTargets(White, sq) * b.pieces[1, KindCode(Pawn)];
    }
    att := att * occ;
    assert att == OutwardLook(p, sq, occ) by { BothSides(b); }
    LookOutward(p, sq, occ);
  }

  ghost function OutwardLook(p: Pos, sq: Square, occ: Bitboard): Bitboard {
    ((KnightTargets(sq) * BothOf(p.at, Knight)) + (KingTargets(sq) * BothOf(p.at, King))
     + (BishopTargets(sq, occ) * (BothOf(p.at, Bishop) + BothOf(p.at, Queen)))
     + (RookTargets(sq, occ) * (BothOf(p.at, Rook) + BothOf(p.at, Queen)))
     + (if p.mod == Mercenary then KingTargets(sq) * BothOf(p.at, Pawn)
        else PawnTargets(Black, sq) * Of(p.at, White, Pawn) + PawnTargets(White, sq) * Of(p.at, Black, Pawn))) * occ
  }

  lemma BothSides(b: Board)
    requires b.Coherent()
    ensures forall k :: b.pieces[0, KindCode(k)] == Of(b.At(), White, k)
    ensures forall k :: b.pieces[1, KindCode(k)] == Of(b.At(), Black, k)
  {
    forall k ensures b.pieces[0, KindCode(k)] == Of(b.At(), White, k) &&
        b.pieces[1, KindCode(k)] == Of(b.At(), Black, k) {
      assert b.pieces[Ix(White), KindCode(k)] == Of(b.At(), White, k);
      assert b.pieces[Ix(Black), KindCode(k)] == Of(b.At(), Black, k);
    }
  }

  lemma LookOutward(p: Pos, sq: Square, occ: Bitboard)
    ensures OutwardLook(p, sq, occ) == AttackersTo(p, sq, occ)
  {
    forall s: Square ensures s in OutwardLook(p, sq, occ) <==> s in AttackersTo(p, sq, occ) {
      LookOutwardAt(p, sq, occ, s);
    }
  }

  lemma LookOutwardAt(p: Pos, sq: Square, occ: Bitboard, s: Square)
    ensures s in OutwardLook(p, sq, occ) <==> s in AttackersTo(p, sq, occ)
  {
    hide OutwardLook, OutwardBears, BearsOn;
    InOutwardLook(p, sq, occ, s);
    BearsBothWays(p, sq, occ, s);
  }

  lemma InOutwardLook(p: Pos, sq: Square, occ: Bitboard, s: Square)
    ensures s in OutwardLook(p, sq, occ) <==> s in occ && OutwardBears(p, s, sq, occ)
  {
    hide KingStep, KnightStep, PawnStep, BishopReach, RookReach, BothOf;
    forall k ensures s in BothOf(p.at, k) <==> p.at[s].Man? && p.at[s].kind == k { InBothOf(p.at, k, s); }
  }

  lemma InBothOf(at: Placement, k: Kind, s: Square)
    ensures s in BothOf(at, k) <==> at[s].Man? && at[s].kind == k
  {
    if at[s].Man? { assert at[s].color == White || at[s].color == Black; }
  }

  lemma BearsBothWays(p: Pos, sq: Square, occ: Bitboard, s: Square)
    ensures OutwardBears(p, s, sq, occ) <==> BearsOn(p, s, sq, occ)
  {
    hide KingStep, KnightStep, PawnStep, BishopReach, RookReach;
    StepsSymmetric(s, sq, White);
    StepsSymmetric(s, sq, Black);
    SlideSymmetric(s, sq, occ);
  }

  predicate OutwardBears(p: Pos, s: Square, sq: Square, occ: Bitboard) {
    && p.at[s].Man?
    && match p.at[s].kind
       case King => KingStep(sq, s)
       case Pawn => if p.mod == Mercenary then KingStep(sq, s) else PawnStep(Opposite(p.at[s].color), sq, s)
       case Knight => KnightStep(sq, s)
       case Bishop => BishopReach(sq, s, occ)
       case Rook => RookReach(sq, s, occ)
       case Queen => BishopReach(sq, s, occ) || RookReach(sq, s, occ)
  }

  // ---- The order of the captures ---------------------------------------------------

  /** Whose turn it is to capture, who still stands, and who bears on the square. */
  datatype Front = Front(stm: Color, occ: Bitboard, bearing: Bitboard)

  function LeastFrom(at: Placement, c: Color, bearing: Bitboard, kinds: seq<Kind>): Option<Kind> {
    if kinds == [] then None
    else if bearing * Of(at, c, kinds[0]) != {} then Some(kinds[0])
    else LeastFrom(at, c, bearing, kinds[1..])
  }

  /** The least valuable attacker of the side to capture; a king not into an attacked square. */
  function Capturer(p: Pos, f: Front): Option<Kind> {
    var k := LeastFrom(p.at, f.stm, f.bearing * Occupied(p.at, f.stm) * f.occ, KINDS);
    if k == Some(King) && f.bearing * Occupied(p.at, Opposite(f.stm)) * f.occ != {} then None else k
  }

  /** The attackers that open up behind a man that leaves. */
  function Unveiled(p: Pos, to: Square, k: Kind, occ: Bitboard): Bitboard {
    (if k == Pawn || k == Bishop || k == Queen
     then BishopTargets(to, occ) * (BothOf(p.at, Bishop) + BothOf(p.at, Queen)) else {})
    + (if k == Rook || k == Queen
       then RookTargets(to, occ) * (BothOf(p.at, Rook) + BothOf(p.at, Queen)) else {})
  }

  function Candidates(p: Pos, f: Front, k: Kind): Bitboard {
    f.bearing * Occupied(p.at, f.stm) * f.occ * Of(p.at, f.stm, k)
  }

  function AfterCapturer(p: Pos, to: Square, f: Front, k: Kind): Front {
    var mine := Candidates(p, f, k);
    var occ := if mine == {} then f.occ else f.occ - {Lsb(mine)};
    Front(Opposite(f.stm), occ, (f.bearing + Unveiled(p, to, k, occ)) * occ)
  }

  /** The kinds that capture in turn, at most n of them. */
  function Capturers(p: Pos, to: Square, f: Front, n: nat): seq<Kind>
    decreases n
  {
    if n == 0 then []
    else match Capturer(p, f)
      case None => []
      case Some(k) => [k] + Capturers(p, to, AfterCapturer(p, to, f, k), n - 1)
  }

  /** What each capture takes: first the man that moved, then each capturer in turn. */
  function VictimWorths(mod: Mod, first: Kind, capturers: seq<Kind>): seq<int>
    decreases |capturers|
  {
    if capturers == [] then [] else [Worth(mod, first)] + VictimWorths(mod, capturers[0], capturers[1..])
  }

  function FirstGain(p: Pos, m: Move): int
    requires IsCapture(m)
  {
    var taken := Worth(p.mod, m.captured.value);
    var signed := if p.mod == FriendlyFire && !m.ep && p.at[m.from].Man? && p.at[m.to].Man?
                     && p.at[m.from].color == p.at[m.to].color then -taken else taken;
    signed + if m.promo.Some? then Worth(p.mod, m.promo.value) - Worth(p.mod, Pawn) else 0
  }

  function FirstFront(p: Pos, m: Move): Front {
    var occ := if m.ep then All(p.at) - {m.from} - {Victim(m)} else All(p.at) - {m.from};
    Front(Opposite(p.side), occ, AttackersTo(p, m.to, occ))
  }

  function Standing(m: Move): Kind { if m.promo.Some? then m.promo.value else m.piece }

  /** Room for the gain list. */
  const SWAP_LIMIT: nat := 30

  function SwapVictims(p: Pos, m: Move): seq<int> {
    VictimWorths(p.mod, Standing(m), Capturers(p, m.to, FirstFront(p, m), SWAP_LIMIT))
  }

  function SeeValue(p: Pos, m: Move): int {
    if IsCapture(m) then EarlySwap(FirstGain(p, m), SwapVictims(p, m)) else 0
  }

  // ---- On the board -----------------------------------------------------------------

  method FindCapturer(b: Board, f: Front) returns (k: Option<Kind>)
    requires b.Coherent()
    ensures k == Capturer(b.Position(), f)
  {
    ghost var p := b.Position();
    hide Of;
    var mine := f.bearing * b.occupied[Ix(f.stm)] * f.occ;
    k := None;
    for t := 0 to |KINDS|
      invariant LeastFrom(p.at, f.stm, mine, KINDS[t..]) == LeastFrom(p.at, f.stm, mine, KINDS)
      invariant k.None?
    {
      assert KINDS[t..][1..] == KINDS[t + 1..];
      if mine * b.pieces[Ix(f.stm), KindCode(KINDS[t])] != {} {
        k := Some(KINDS[t]);
        break;
      }
    }
    if k == Some(King) && f.bearing * b.occupied[Ix(Opposite(f.stm))] * f.occ != {} {
      k := None;
    }
  }

  method FindUnveiled(b: Board, to: Square, k: Kind, occ: Bitboard) returns (more: Bitboard)
    requires b.Coherent()
    ensures more == Unveiled(b.Position(), to, k, occ)
  {
    BothSides(b);
    hide Of, BishopTargets, RookTargets;
    more := {};
    if k == Pawn || k == Bishop || k == Queen {
      var diagonal := BishopAttacks(to, occ);
      more := more + diagonal * (b.pieces[0, KindCode(Bishop)] + b.pieces[1, KindCode(Bishop)]
                                 + b.pieces[0, KindCode(Queen)] + b.pieces[1, KindCode(Queen)]);
    }
    if k == Rook || k == Queen {
      var straight := RookAttacks(to, occ);
      more := more + straight * (b.pieces[0, KindCode(Rook)] + b.pieces[1, KindCode(Rook)]
                                 + b.pieces[0, KindCode(Queen)] + b.pieces[1, KindCode(Queen)]);
    }
  }

  method AdvanceFront(b: Board, to: Square, f: Front, k: Kind) returns (g: Front)
    requires b.Coherent()
    ensures g == AfterCapturer(b.Position(), to, f, k)
  {
    hide Of, Unveiled;
    var mine := f.bearing * b.occupied[Ix(f.stm)] * f.occ * b.pieces[Ix(f.stm), KindCode(k)];
    var occ := if mine == {} then f.occ else f.occ - {Lsb(mine)};
    var more := FindUnveiled(b, to, k, occ);
    g := Front(Opposite(f.stm), occ, (f.bearing + more) * occ);
  }

  method FindFirstGain(b: Board, m: Move) returns (gain: int)
    requires b.Coherent() && IsCapture(m)
    ensures gain == FirstGain(b.Position(), m)
  {
    gain := Worth(b.mod, m.captured.value);
    if b.mod == FriendlyFire && !m.ep && b.mailbox[m.from].Man? && b.mailbox[m.to].Man?
       && b.mailbox[m.from].color == b.mailbox[m.to].color {
      gain := -gain;
    }
    if m.promo.Some? {
      gain := gain + Worth(b.mod, m.promo.value) - Worth(b.mod, Pawn);
    }
  }

  /** The value still to come out of a gain list and the captures that remain. */
  ghost function Pending(gains: seq<int>, gain: int, mod: Mod, victim: Kind, rest: seq<Kind>): int {
    FoldBack(gains, EarlySwap(gain, VictimWorths(mod, victim, rest)))
  }

  lemma PendingStep(gains: seq<int>, gain: int, mod: Mod, victim: Kind, rest: seq<Kind>)
    ensures var next := Worth(mod, victim) - gain;
            if rest == [] || Max(-gain, next) < 0 then Pending(gains, gain, mod, victim, rest) == FoldBack(gains, gain)
            else Pending(gains, gain, mod, victim, rest) == Pending(gains + [gain], next, mod, rest[0], rest[1..])
  {
    hide Worth, EarlySwap, VictimWorths, FoldBack;
    SwapStep(gain, mod, victim, rest);
    if rest != [] {
      FoldPush(gains, gain, EarlySwap(Worth(mod, victim) - gain, VictimWorths(mod, rest[0], rest[1..])));
    }
  }

  lemma FoldPush(gains: seq<int>, gain: int, x: int)
    ensures FoldBack(gains + [gain], x) == FoldBack(gains, -Max(-gain, x))
  {
    assert (gains + [gain])[..|gains|] == gains;
  }

  lemma SwapStep(gain: int, mod: Mod, victim: Kind, rest: seq<Kind>)
    ensures rest == [] ==> EarlySwap(gain, VictimWorths(mod, victim, rest)) == gain
    ensures rest != [] ==>
            var next := Worth(mod, victim) - gain;
            EarlySwap(gain, VictimWorths(mod, victim, rest)) ==
              if Max(-gain, next) < 0 then gain
              else -Max(-gain, EarlySwap(next, VictimWorths(mod, rest[0], rest[1..])))
  {
    hide Worth;
  }

  lemma CapturersStep(p: Pos, to: Square, f: Front, n: nat)
    ensures n == 0 || Capturer(p, f).None? ==> Capturers(p, to, f, n) == []
    ensures n > 0 && Capturer(p, f).Some? ==>
            var k := Capturer(p, f).value;
            Capturers(p, to, f, n) == [k] + Capturers(p, to, AfterCapturer(p, to, f, k), n - 1)
  {
    hide Capturer, AfterCapturer;
  }

  /** Fill the gain list until the exchange ends, runs out of room, or is abandoned. */
  method FillGains(b: Board, m: Move, gain: array<int>) returns (d: nat)
    requires b.Coherent() && Fits(b.Position(), m) && IsCapture(m) && gain.Length == 32
    modifies gain
    ensures d < 32 && 0 < d && FoldBack(gain[..d - 1], gain[d - 1]) == SeeValue(b.Position(), m)
  {
    hide Capturer, Capturers, AfterCapturer, AttackersTo, Worth, FirstGain, Fits, EarlySwap, VictimWorths;
    ghost var p := b.Position();
    gain[0] := FindFirstGain(b, m);
    var victim := Standing(m);
    var occ := b.all - {m.from};
    if m.ep { occ := occ - {Victim(m)}; }
    var bearing := FindAttackers(b, m.to, occ);
    var f := Front(Opposite(b.side), occ, bearing);
    assert f == FirstFront(p, m);
    d := 0;
    assert Pending(gain[..0], gain[0], p.mod, victim, Capturers(p, m.to, f, 30)) == SeeValue(p, m);
    hide FoldBack, Pending, SeeValue, FirstFront;
    while d < 31
      invariant d <= 31
      invariant d <= 30 ==> Pending(gain[..d], gain[d], p.mod, victim, Capturers(p, m.to, f, 30 - d)) == SeeValue(p, m)
      invariant d == 31 ==> FoldBack(gain[..30], gain[30]) == SeeValue(p, m)
    {
      ghost var rest, before := Capturers(p, m.to, f, 30 - d), gain[..d];
      d := d + 1;
      gain[d] := Worth(b.mod, victim) - gain[d - 1];
      assert gain[..d - 1] == before && gain[..d] == before + [gain[d - 1]];
      var k := FindCapturer(b, f);
      PendingStep(before, gain[d - 1], p.mod, victim, rest);
      CapturersStep(p, m.to, f, 30 - (d - 1));
      if Max(-gain[d - 1], gain[d]) < 0 { break; }
      if k.None? { break; }
      f := AdvanceFront(b, m.to, f, k.value);
      victim := k.value;
    }
  }

  method FoldGains(gain: array<int>, top: nat) returns (value: int)
    requires top < gain.Length
    modifies gain
    ensures value == FoldBack(old(gain[..top]), old(gain[top]))
  {
    var d := top;
    while d > 0
      invariant 0 <= d < gain.Length
      invariant FoldBack(gain[..d], gain[d]) == FoldBack(old(gain[..top]), old(gain[top]))
    {
      ghost var below := gain[..d - 1];
      assert gain[..d][..d - 1] == below;
      gain[d - 1] := -Max(-gain[d - 1], gain[d]);
      assert gain[..d - 1] == below;
      d := d - 1;
    }
    value := gain[0];
  }

  /** The swap evaluated as the engine does it: fill the gain list, then fold it back. */
  method ComputeSee(b: Board, m: Move) returns (value: int)
    requires b.Coherent() && Fits(b.Position(), m)
    ensures value == SeeValue(b.Position(), m)
  {
    if !IsCapture(m) { return 0; }
    hide SeeValue, Fits, FoldBack, Board.Coherent;
    var gain := new int[32];
    var d := FillGains(b, m, gain);
    value := FoldGains(gain, d - 1);
  }

  /** The engine's verdict on a capture has the sign of best play with the same captures. */
  lemma SeeSign(p: Pos, m: Move)
    requires IsCapture(m)
    ensures var best := FirstGain(p, m) - BestReply(SwapVictims(p, m));
            || (best == 0 && SeeValue(p, m) == 0)
            || 0 < best <= SeeValue(p, m)
            || SeeValue(p, m) <= best < 0
  {
    hide SwapVictims, FirstGain;
    EarlyStopKeepsSign(FirstGain(p, m), SwapVictims(p, m));
    FullSwapIsBestPlay(FirstGain(p, m), SwapVictims(p, m));
  }

  /** The engine's verdict is the value of best play if and only if the captures past its stop make no
      difference to the best reply. */
  lemma SeeExactly(p: Pos, m: Move)
    requires IsCapture(m)
    ensures var gain, victims := FirstGain(p, m), SwapVictims(p, m);
            SeeValue(p, m) == gain - BestReply(victims) <==>
                BestReply(victims[..StopAt(gain, victims)]) == BestReply(victims)
  {
    hide SwapVictims, FirstGain;
    EarlyStopExactly(FirstGain(p, m), SwapVictims(p, m));
    FullSwapIsBestPlay(FirstGain(p, m), SwapVictims(p, m));
  }

  // ---- A value the early stop changes -------------------------------------------------

  /** A white pawn may take a queen that a pawn defends. */
  function DefendedQueen(): Pos {
    Pos(seq(64, s => if s == 27 then Man(White, Pawn) else if s == 36 then Man(Black, Queen)
                     else if s == 45 then Man(Black, Pawn) else if s == 0 then Man(White, King)
                     else if s == 56 then Man(Black, King) else Empty),
        White, Rights(false, false, false, false), NO_SQUARE, 0, 1, Classic,
        false, false, false, {}, {}, false, 0)
  }

  /** Taking it wins 900 and loses 100 again, but the engine stops at 900. */
  lemma EarlyStopChangesValue()
    ensures var p, m := DefendedQueen(), Capture(27, 36, Pawn, Queen);
            && Pseudo(p, m) && SwapVictims(p, m) == [100]
            && SeeValue(p, m) == 900 && FirstGain(p, m) - BestReply(SwapVictims(p, m)) == 800
  {
    var p, m := DefendedQueen(), Capture(27, 36, Pawn, Queen);
    OneRecapture(p, m);
    PawnMayTake(p, m);
    hide Pseudo, SwapVictims, DefendedQueen;
    assert [100][1..] == [];
  }

  lemma PawnMayTake(p: Pos, m: Move)
    requires p == DefendedQueen() && m == Capture(27, 36, Pawn, Queen)
    ensures Pseudo(p, m) && FirstGain(p, m) == 900
  {
    assert PawnTakes(p, m);
  }

  lemma OneRecapture(p: Pos, m: Move)
    requires p == DefendedQueen() && m == Capture(27, 36, Pawn, Queen)
    ensures SwapVictims(p, m) == [100]
  {
    var f := FirstFront(p, m);
    assert f.bearing == {45};
    assert f.bearing * Occupied(p.at, Black) * f.occ == {45};
    assert Capturer(p, f) == Some(Pawn);
    var g := AfterCapturer(p, 36, f, Pawn);
    assert g.bearing == {};
    assert Capturer(p, g).None? by {
      assert g.bearing * Occupied(p.at, g.stm) * g.occ == {};
      NobodyLeft(p.at, g.stm, KINDS);
    }
    hide AttackersTo, AfterCapturer, Capturer;
    CapturersStep(p, 36, f, SWAP_LIMIT);
    CapturersStep(p, 36, g, SWAP_LIMIT - 1);
    assert [Pawn][1..] == [];
    assert VictimWorths(Classic, Pawn, [Pawn]) == [100] + VictimWorths(Classic, Pawn, []);
  }

  lemma {:induction false} NobodyLeft(at: Placement, c: Color, kinds: seq<Kind>)
    ensures LeastFrom(at, c, {}, kinds).None?
  {
    if kinds != [] { NobodyLeft(at, c, kinds[1..]); }
  }
}
