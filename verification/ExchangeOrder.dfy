/** Who captures next in an exchange, and who can after that. */
module ExchangeOrder {
  import opened Types
  import opened Bitboards
  import opened Position
  import opened Attacks
  import opened Making
  import opened Totals
  import opened MoveMeaning
  import opened See

  /** A man of the side to capture that still stands and bears on the square. */
  predicate Able(p: Pos, f: Front, s: Square) {
    s in f.bearing && s in f.occ && p.at[s].Man? && p.at[s].color == f.stm
  }

  /** A man of the other side that still stands and bears on the square. */
  predicate Opposed(p: Pos, f: Front, s: Square) {
    s in f.bearing && s in f.occ && p.at[s].Man? && p.at[s].color != f.stm
  }

  lemma {:induction false} FirstOfKinds(at: Placement, c: Color, men: Bitboard, kinds: seq<Kind>)
    ensures var r := LeastFrom(at, c, men, kinds);
            if r.None? then forall j :: 0 <= j < |kinds| ==> men * Of(at, c, kinds[j]) == {}
            else exists i :: 0 <= i < |kinds| && kinds[i] == r.value && men * Of(at, c, kinds[i]) != {}
                             && forall j :: 0 <= j < i ==> men * Of(at, c, kinds[j]) == {}
  {
    hide Of;
    if kinds != [] && men * Of(at, c, kinds[0]) == {} {
      FirstOfKinds(at, c, men, kinds[1..]);
      var r := LeastFrom(at, c, men, kinds);
      if r.Some? {
        var i :| 0 <= i < |kinds[1..]| && kinds[1..][i] == r.value && men * Of(at, c, kinds[1..][i]) != {}
                 && forall j :: 0 <= j < i ==> men * Of(at, c, kinds[1..][j]) == {};
        forall j | 0 <= j < i + 1 ensures men * Of(at, c, kinds[j]) == {} {
          assert j > 0 ==> kinds[j] == kinds[1..][j - 1];
        }
        assert kinds[i + 1] == kinds[1..][i];
      } else {
        forall j | 0 <= j < |kinds| ensures men * Of(at, c, kinds[j]) == {} {
          assert j > 0 ==> kinds[j] == kinds[1..][j - 1];
        }
      }
    }
  }

  /** The kind the search picks: some man of it is able, and no able man is of a lesser kind. */
  lemma LeastAble(p: Pos, f: Front)
    ensures var men := f.bearing * Occupied(p.at, f.stm) * f.occ; var r := LeastFrom(p.at, f.stm, men, KINDS);
            && (r.None? <==> forall s: Square :: !Able(p, f, s))
            && (r.Some? ==> exists s: Square :: Able(p, f, s) && p.at[s].kind == r.value)
            && (r.Some? ==> forall s: Square :: Able(p, f, s) ==> KindCode(r.value) <= KindCode(p.at[s].kind))
  {
    var men := f.bearing * Occupied(p.at, f.stm) * f.occ;
    var r := LeastFrom(p.at, f.stm, men, KINDS);
    forall s: Square ensures Able(p, f, s) <==> s in men { }
    FirstOfKinds(p.at, f.stm, men, KINDS);
    forall s: Square | Able(p, f, s)
      ensures s in men * Of(p.at, f.stm, p.at[s].kind) && KINDS[KindCode(p.at[s].kind)] == p.at[s].kind
    {
    }
    hide LeastFrom, Occupied;
    if r.Some? {
      var i :| 0 <= i < |KINDS| && KINDS[i] == r.value && men * Of(p.at, f.stm, KINDS[i]) != {}
               && forall j :: 0 <= j < i ==> men * Of(p.at, f.stm, KINDS[j]) == {};
      assert KindCode(r.value) == i;
      var s :| s in men * Of(p.at, f.stm, r.value);
      assert Able(p, f, s) && p.at[s].kind == r.value;
    }
  }

  /** The least valuable man captures; nobody does if nobody is able, or only a king is and the other side still
      bears on the square. */
  lemma LeastCaptures(p: Pos, f: Front)
    ensures Capturer(p, f).Some? ==>
              && (exists s: Square :: Able(p, f, s) && p.at[s].kind == Capturer(p, f).value)
              && forall s: Square :: Able(p, f, s) ==> KindCode(Capturer(p, f).value) <= KindCode(p.at[s].kind)
    ensures Capturer(p, f).None? <==>
              || (forall s: Square :: !Able(p, f, s))
              || ((forall s: Square :: Able(p, f, s) ==> p.at[s].kind == King) && exists s: Square :: Opposed(p, f, s))
  {
    LeastAble(p, f);
    var others := f.bearing * Occupied(p.at, Opposite(f.stm)) * f.occ;
    forall s: Square ensures Opposed(p, f, s) <==> s in others { }
    assert others != {} <==> exists s: Square :: Opposed(p, f, s);
    hide LeastFrom, Occupied, Able, Opposed;
    forall k: Kind ensures KindCode(King) <= KindCode(k) <==> k == King { }
  }

  // ---- Attackers behind a man that leaves ------------------------------------------------------

  /** The bearing men are those that bear on the square through the men who still stand. */
  ghost predicate Fresh(p: Pos, to: Square, f: Front) { f.bearing == AttackersTo(p, to, f.occ) }

  /** The way opens only if the man that left stood on it, and so on a line with the square. */
  lemma OnTheWay(a: Square, to: Square, s: Square, occ: Bitboard)
    requires ClearBetween(a, to, occ - {s}) && !ClearBetween(a, to, occ)
    ensures Diagonal(a, to) ==> Diagonal(s, to)
    ensures Orthogonal(a, to) ==> Orthogonal(s, to)
  {
    var k :| 0 < k < Distance(a, to) && CellAt(a, to, k) in occ;
    assert CellAt(a, to, k) == s;
    if Diagonal(a, to) || Orthogonal(a, to) {
      var dr, dc := Sign(Row(to) - Row(a)), Sign(Col(to) - Col(a));
      HeadingCell(a, to, dr, dc, k);
      assert Row(s) == Along(Row(a), dr, k) && Col(s) == Along(Col(a), dc, k);
    }
  }

  function Sign(x: int): int { if x > 0 then 1 else if x < 0 then -1 else 0 }

  lemma FewerInTheWay(a: Square, to: Square, s: Square, occ: Bitboard)
    requires ClearBetween(a, to, occ)
    ensures ClearBetween(a, to, occ - {s})
  {
  }

  /** What a man does on its line to a square: a pawn, bishop or queen may stand on a diagonal, a rook or queen on
      a row or file, a knight on neither. */
  lemma LineOf(p: Pos, s: Square, to: Square, occ: Bitboard)
    requires BearsOn(p, s, to, occ) && p.at[s].kind != King && !(p.mod == Mercenary && p.at[s].kind == Pawn)
    ensures Diagonal(s, to) ==> p.at[s].kind in {Pawn, Bishop, Queen}
    ensures Orthogonal(s, to) ==> p.at[s].kind in {Rook, Queen}
  {
  }

  lemma InUnveiled(p: Pos, to: Square, k: Kind, occ: Bitboard, t: Square)
    ensures t in Unveiled(p, to, k, occ) <==>
            && p.at[t].Man?
            && (|| ((k == Pawn || k == Bishop || k == Queen) && BishopReach(t, to, occ)
                    && (p.at[t].kind == Bishop || p.at[t].kind == Queen))
                || ((k == Rook || k == Queen) && RookReach(t, to, occ)
                    && (p.at[t].kind == Rook || p.at[t].kind == Queen)))
  {
    SlideSymmetric(t, to, occ);
    InBothOf(p.at, Bishop, t);
    InBothOf(p.at, Rook, t);
    InBothOf(p.at, Queen, t);
    hide BishopReach, RookReach, BothOf;
  }

  /** A slide that opens when s leaves runs through s. */
  lemma SlideOpens(t: Square, to: Square, s: Square, occ: Bitboard)
    ensures BishopReach(t, to, occ) ==> BishopReach(t, to, occ - {s})
    ensures RookReach(t, to, occ) ==> RookReach(t, to, occ - {s})
    ensures BishopReach(t, to, occ - {s}) && !BishopReach(t, to, occ) ==> Diagonal(s, to)
    ensures RookReach(t, to, occ - {s}) && !RookReach(t, to, occ) ==> Orthogonal(s, to)
  {
    if ClearBetween(t, to, occ) {
      FewerInTheWay(t, to, s, occ);
    } else if ClearBetween(t, to, occ - {s}) {
      OnTheWay(t, to, s, occ);
    }
    hide ClearBetween, Diagonal, Orthogonal;
  }

  /** Removing the capturer and looking behind it finds exactly the men that now bear on the square. */
  lemma OneMoreBears(p: Pos, to: Square, occ: Bitboard, s: Square, t: Square)
    requires s in occ && BearsOn(p, s, to, occ) && t in occ - {s}
    requires p.at[s].kind != King && !(p.mod == Mercenary && p.at[s].kind == Pawn)
    ensures BearsOn(p, t, to, occ - {s}) <==> BearsOn(p, t, to, occ) || t in Unveiled(p, to, p.at[s].kind, occ - {s})
  {
    LineOf(p, s, to, occ);
    SlideOpens(t, to, s, occ);
    InUnveiled(p, to, p.at[s].kind, occ - {s}, t);
    hide BishopReach, RookReach, Diagonal, Orthogonal, KnightStep, KingStep, PawnStep, Unveiled;
  }

  /** Outside a few cases the swap never loses sight of an attacker: after each capture the bearing men are what a
      fresh look would find. The exceptions are a king that captures, and a Mercenary pawn, which can stand on a
      line that is not looked behind. */
  lemma StaysFresh(p: Pos, to: Square, f: Front, k: Kind)
    requires Fresh(p, to, f) && Capturer(p, f) == Some(k) && k != King && !(p.mod == Mercenary && k == Pawn)
    ensures var g := AfterCapturer(p, to, f, k);
            && Fresh(p, to, g) && g.stm == Opposite(f.stm)
            && exists s: Square :: Able(p, f, s) && p.at[s].kind == k && g.occ == f.occ - {s}
  {
    LeastCaptures(p, f);
    var mine := Candidates(p, f, k);
    var able: Square :| Able(p, f, able) && p.at[able].kind == k;
    assert able in mine;
    var s := Lsb(mine);
    assert Able(p, f, s) && p.at[s].kind == k;
    var g := AfterCapturer(p, to, f, k);
    forall t: Square ensures t in g.bearing <==> t in AttackersTo(p, to, g.occ) {
      if t in g.occ {
        assert t in f.bearing <==> BearsOn(p, t, to, f.occ);
        OneMoreBears(p, to, f.occ, s, t);
      }
    }
  }

  /** The capturers when every step looks at the board afresh. */
  function FreshCapturers(p: Pos, to: Square, stm: Color, occ: Bitboard, n: nat): seq<Kind>
    decreases n
  {
    var f := Front(stm, occ, AttackersTo(p, to, occ));
    if n == 0 || Capturer(p, f).None? then []
    else
      var k := Capturer(p, f).value;
      [k] + FreshCapturers(p, to, Opposite(stm), AfterCapturer(p, to, f, k).occ, n - 1)
  }

  /** Outside Mercenary, and as long as no king captures, updating the attackers step by step names the same
      capturers as looking afresh each time. */
  lemma {:induction false} UpdatingIsLookingAfresh(p: Pos, to: Square, f: Front, n: nat)
    requires Fresh(p, to, f) && p.mod != Mercenary && King !in Capturers(p, to, f, n)
    ensures Capturers(p, to, f, n) == FreshCapturers(p, to, f.stm, f.occ, n)
    decreases n
  {
    hide AttackersTo, AfterCapturer, Capturer;
    if n > 0 && Capturer(p, f).Some? {
      var k := Capturer(p, f).value;
      var g := AfterCapturer(p, to, f, k);
      assert Capturers(p, to, f, n) == [k] + Capturers(p, to, g, n - 1);
      assert k in Capturers(p, to, f, n);
      StaysFresh(p, to, f, k);
      assert forall x :: x in Capturers(p, to, g, n - 1) ==> x in Capturers(p, to, f, n);
      UpdatingIsLookingAfresh(p, to, g, n - 1);
    }
  }

  /** The first front is fresh: the exchange starts from what bears on the square once the mover has left. */
  lemma StartsFresh(p: Pos, m: Move)
    ensures Fresh(p, m.to, FirstFront(p, m)) && FirstFront(p, m).stm == Opposite(p.side)
    ensures forall s: Square :: s in FirstFront(p, m).occ <==>
              p.at[s] != Empty && s != m.from && !(m.ep && s == Sq(Row(m.from), Col(m.to)))
  {
    hide AttackersTo;
  }

  /** The first victim is the man that has just landed, and each later one is the capturer before it. */
  lemma {:induction false} VictimsInTurn(mod: Mod, first: Kind, capturers: seq<Kind>, i: nat)
    requires i < |capturers|
    ensures |VictimWorths(mod, first, capturers)| == |capturers|
    ensures VictimWorths(mod, first, capturers)[i] == Worth(mod, if i == 0 then first else capturers[i - 1])
    decreases |capturers|
  {
    hide Worth;
    if |capturers| > 1 { VictimsInTurn(mod, capturers[0], capturers[1..], if i == 0 then 0 else i - 1); }
  }

  lemma FirstVictimLanded(p: Pos, m: Move)
    requires Fits(p, m) && SwapVictims(p, m) != []
    ensures SwapVictims(p, m)[0] == Worth(p.mod, Next(p, m).at[m.to].kind)
  {
    var capturers := Capturers(p, m.to, FirstFront(p, m), SWAP_LIMIT);
    LandsAsNamed(p, m);
    hide Next, Fits, Capturers, FirstFront, Worth;
    if capturers != [] { VictimsInTurn(p.mod, Standing(m), capturers, 0); }
  }

  // ---- Material ------------------------------------------------------------------------------------

  /** A man counts for its side and against the other. */
  function Balance(mod: Mod, c: Color): (Piece, int) -> int {
    (x: Piece, _: int) =>
      if x == Empty then 0 else if x.color == c then Worth(mod, x.kind) else -Worth(mod, x.kind)
  }

  /** The first gain is the change in the balance of material, own men taken included. The one exception is a
      captured queen that goes back to her prison: she is counted as taken. */
  lemma FirstGainIsMaterial(p: Pos, m: Move)
    requires Fits(p, m) && IsCapture(m) && (p.at[m.to].Man? && p.at[m.to].color == p.side ==> p.mod == FriendlyFire)
    ensures FirstGain(p, m) == Total(Next(p, m).at, Balance(p.mod, p.side)) - Total(p.at, Balance(p.mod, p.side))
                               + if Reprisons(p, m) then Worth(p.mod, Queen) else 0
  {
    hide Worth;
    MoveTotal(p, m, Balance(p.mod, p.side));
  }

  /** Where a king is dear, the least kind is the cheapest man. */
  lemma LeastIsCheapest(mod: Mod, k: Kind, l: Kind)
    requires mod != Heir && mod != Succession
    ensures KindCode(k) < KindCode(l) <==> Worth(mod, k) < Worth(mod, l)
  {
  }

  // ---- A rook for a pawn -------------------------------------------------------------------------------

  /** White Kg1, Re1 and Nf3, Black Kg8, Qe7 and pawns d6 and e5. */
  function GuardedPawn(): Pos {
    Pos(seq(64, s => if s == 6 then Man(White, King) else if s == 4 then Man(White, Rook)
                     else if s == 21 then Man(White, Knight) else if s == 62 then Man(Black, King)
                     else if s == 52 then Man(Black, Queen) else if s == 43 || s == 36 then Man(Black, Pawn)
                     else Empty),
        White, Rights(false, false, false, false), NO_SQUARE, 0, 1, Classic,
        false, false, false, {}, {}, false, 0)
  }

  const ROOK_TAKES: Move := Capture(4, 36, Rook, Pawn)

  /** The pawn retakes, not the queen: the rook is lost for a pawn. */
  lemma RookForPawn()
    ensures SeeValue(GuardedPawn(), ROOK_TAKES) == -400
  {
    var p := GuardedPawn();
    GuardedSwap(p);
    assert FirstGain(p, ROOK_TAKES) == 100;
    hide SwapVictims, GuardedPawn;
    assert [500, 100, 320][1..] == [100, 320] && [100, 320][1..] == [320];
  }

  lemma GuardedBearing(p: Pos)
    requires p == GuardedPawn()
    ensures FirstFront(p, ROOK_TAKES) == Front(Black, {6, 21, 36, 43, 52, 62}, {21, 43, 52})
  {
    var occ: Bitboard := {6, 21, 36, 43, 52, 62};
    assert All(p.at) - {4} == occ;
    assert KnightStep(21, 36) && PawnStep(Black, 43, 36) && !PawnStep(Black, 36, 36);
    assert !KingStep(6, 36) && !KingStep(62, 36);
    assert Orthogonal(52, 36) && Distance(52, 36) == 2 && CellAt(52, 36, 1) == 44;
    assert RookReach(52, 36, occ);
    forall s: Square ensures s in AttackersTo(p, 36, occ) <==> s in {21, 43, 52} {
    }
  }

  lemma NextFront(p: Pos, f: Front, k: Kind, s: Square, bearing: Bitboard)
    requires p == GuardedPawn() && Candidates(p, f, k) == {s} && f.bearing - {s} == bearing
    requires Unveiled(p, 36, k, f.occ - {s}) * (f.occ - {s}) <= bearing && bearing <= f.occ
    ensures AfterCapturer(p, 36, f, k) == Front(Opposite(f.stm), f.occ - {s}, bearing)
  {
    hide Candidates, Unveiled, GuardedPawn;
    assert Lsb({s}) == s;
  }

  lemma PicksOnly(p: Pos, f: Front, s: Square)
    requires Able(p, f, s) && p.at[s].kind != King
    requires forall t: Square :: Able(p, f, t) ==> KindCode(p.at[s].kind) <= KindCode(p.at[t].kind)
    ensures Capturer(p, f) == Some(p.at[s].kind)
  {
    assert p.at[s].Man?;
    hide Capturer, Able;
    LeastCaptures(p, f);
    if Capturer(p, f).Some? { SameCode(Capturer(p, f).value, p.at[s].kind); }
  }

  lemma SameCode(k: Kind, l: Kind)
    ensures KindCode(k) == KindCode(l) ==> k == l
  {
  }

  /** Nothing stands behind a capturer here: among the men left the only slider is the queen, on the file. */
  lemma NothingBehind(p: Pos, k: Kind, occ: Bitboard)
    requires p == GuardedPawn() && occ <= {6, 21, 36, 43, 52, 62} && k in {Pawn, Knight, Queen}
    requires k == Queen ==> 52 !in occ
    ensures Unveiled(p, 36, k, occ) * occ == {}
  {
    assert !Diagonal(52, 36);
    forall t: Square | t in occ ensures t !in Unveiled(p, 36, k, occ) {
      InUnveiled(p, 36, k, occ, t);
    }
  }

  lemma GuardedSwap(p: Pos)
    requires p == GuardedPawn()
    ensures SwapVictims(p, ROOK_TAKES) == [500, 100, 320]
  {
    var f := FirstFront(p, ROOK_TAKES);
    GuardedBearing(p);
    var g := Front(White, {6, 21, 36, 52, 62}, {21, 52});
    var h := Front(Black, {6, 36, 52, 62}, {52});
    var i := Front(White, {6, 36, 62}, {});
    PawnRetakes(p, f, g);
    KnightRetakes(p, g, h);
    QueenRetakes(p, h, i);
    assert Capturer(p, i).None? by { LeastCaptures(p, i); }
    hide Capturer, AfterCapturer, FirstFront, GuardedPawn;
    ThreeCapturers(p, f, g, h, i, SWAP_LIMIT);
    hide Capturers;
    ThreeWorths();
  }

  lemma ThreeCapturers(p: Pos, f: Front, g: Front, h: Front, i: Front, n: nat)
    requires n >= 4 && Capturer(p, f) == Some(Pawn) && AfterCapturer(p, 36, f, Pawn) == g
    requires Capturer(p, g) == Some(Knight) && AfterCapturer(p, 36, g, Knight) == h
    requires Capturer(p, h) == Some(Queen) && AfterCapturer(p, 36, h, Queen) == i && Capturer(p, i).None?
    ensures Capturers(p, 36, f, n) == [Pawn, Knight, Queen]
  {
    hide Capturer, AfterCapturer;
    CapturersStep(p, 36, f, n);
    CapturersStep(p, 36, g, n - 1);
    CapturersStep(p, 36, h, n - 2);
    CapturersStep(p, 36, i, n - 3);
    hide Capturers;
  }

  lemma ThreeWorths()
    ensures VictimWorths(Classic, Rook, [Pawn, Knight, Queen]) == [500, 100, 320]
  {
    assert [Pawn, Knight, Queen][1..] == [Knight, Queen] && [Knight, Queen][1..] == [Queen] && [Queen][1..] == [];
    assert VictimWorths(Classic, Knight, [Queen]) == [320] + VictimWorths(Classic, Queen, []);
    assert VictimWorths(Classic, Pawn, [Knight, Queen]) == [100] + VictimWorths(Classic, Knight, [Queen]);
  }

  lemma PawnRetakes(p: Pos, f: Front, g: Front)
    requires p == GuardedPawn() && f == Front(Black, {6, 21, 36, 43, 52, 62}, {21, 43, 52})
    requires g == Front(White, {6, 21, 36, 52, 62}, {21, 52})
    ensures Capturer(p, f) == Some(Pawn) && AfterCapturer(p, 36, f, Pawn) == g
  {
    PicksOnly(p, f, 43);
    assert Candidates(p, f, Pawn) == {43} && f.occ - {43} == g.occ && f.bearing - {43} == g.bearing;
    NothingBehind(p, Pawn, g.occ);
    NextFront(p, f, Pawn, 43, g.bearing);
  }

  lemma KnightRetakes(p: Pos, f: Front, g: Front)
    requires p == GuardedPawn() && f == Front(White, {6, 21, 36, 52, 62}, {21, 52})
    requires g == Front(Black, {6, 36, 52, 62}, {52})
    ensures Capturer(p, f) == Some(Knight) && AfterCapturer(p, 36, f, Knight) == g
  {
    PicksOnly(p, f, 21);
    assert Candidates(p, f, Knight) == {21} && f.occ - {21} == g.occ && f.bearing - {21} == g.bearing;
    NothingBehind(p, Knight, g.occ);
    NextFront(p, f, Knight, 21, g.bearing);
  }

  lemma QueenRetakes(p: Pos, f: Front, g: Front)
    requires p == GuardedPawn() && f == Front(Black, {6, 36, 52, 62}, {52})
    requires g == Front(White, {6, 36, 62}, {})
    ensures Capturer(p, f) == Some(Queen) && AfterCapturer(p, 36, f, Queen) == g
  {
    PicksOnly(p, f, 52);
    assert Candidates(p, f, Queen) == {52} && f.occ - {52} == g.occ && f.bearing - {52} == g.bearing;
    NothingBehind(p, Queen, g.occ);
    NextFront(p, f, Queen, 52, g.bearing);
  }
}
