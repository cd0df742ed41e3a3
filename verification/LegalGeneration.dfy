/** Legality by make, test, unmake; and the generators that filter by it. */
module LegalGeneration {
  import opened Types
  import opened Bitboards
  import opened Position
  import opened Attacks
  import opened Making
  import opened Boards
  import opened Rules
  import opened MoveLists
  import opened Captures
  import opened Reachable
  import opened Legality
  import opened AttackLookup
  import opened Generation

  method SafeAfter(b: Board, mover: Color) returns (legal: bool)
    requires b.Coherent()
    ensures legal <==> LegalAfter(b.Position(), mover)
  {
    hide InCheck, Attacked;
    var check := BoardInCheck(b, mover);
    legal := !check;
    if legal && b.mod == Truce && b.truceActive {
      var kings := b.pieces[Ix(Opposite(mover)), KindCode(King)];
      if kings != {} {
        var attacked := SquareAttacked(b, Lsb(kings), mover);
        if attacked { legal := false; }
      }
    }
  }

  /** Make the move, look, unmake it: the board is left as it was. */
  method IsLegal(b: Board, m: Move) returns (legal: bool)
    requires b.Valid() && b.ply < MAX_HISTORY && Fits(b.Position(), m)
    modifies b, b.mailbox, b.pieces, b.occupied, b.history
    ensures b.Valid() && b.Value() == old(b.Value())
    ensures legal <==> Legal(old(b.Position()), m)
  {
    hide Fits, Next, Hash, Record, LegalAfter, Board.Coherent;
    ghost var before := b.Value();
    var mover := b.side;
    b.MakeMove(m);
    legal := SafeAfter(b, mover);
    LastOnStack(b, before, m);
    b.UnmakeMove(before);
  }

  lemma LastOnStack(b: Board, before: State, m: Move)
    requires b.Valid() && b.Value() == Make(b.keys, before, m)
    ensures 0 < b.ply && b.history[b.ply - 1].move == m
  {
    hide Next, Hash, Board.Coherent;
    assert |b.history[..b.ply]| == |before.stack| + 1;
    assert b.history[b.ply - 1] == b.history[..b.ply][b.ply - 1] == Record(before, m);
  }

  method PseudoInto(b: Board, ml: MoveList, capturesOnly: bool)
    requires b.Coherent() && ml.moves == []
    modifies ml
    ensures ml.Valid() && ml.moves == Clip(ByKind(b.Position(), capturesOnly))
  {
    hide OfKind, Clip;
    ghost var p := b.Position();
    var co := capturesOnly;
    ClipNothing([]);
    AddKind(b, ml, Pawn, co);
    assert [] + OfKind(p, Pawn, co) == OfKind(p, Pawn, co);
    AddKind(b, ml, Knight, co);
    ClipAppend(OfKind(p, Pawn, co), OfKind(p, Knight, co));
    AddKind(b, ml, Bishop, co);
    ClipAppend(OfKind(p, Pawn, co) + OfKind(p, Knight, co), OfKind(p, Bishop, co));
    AddKind(b, ml, Rook, co);
    ClipAppend(OfKind(p, Pawn, co) + OfKind(p, Knight, co) + OfKind(p, Bishop, co), OfKind(p, Rook, co));
    AddKind(b, ml, Queen, co);
    ClipAppend(OfKind(p, Pawn, co) + OfKind(p, Knight, co) + OfKind(p, Bishop, co) + OfKind(p, Rook, co),
        OfKind(p, Queen, co));
    AddKind(b, ml, King, co);
    ClipAppend(OfKind(p, Pawn, co) + OfKind(p, Knight, co) + OfKind(p, Bishop, co) + OfKind(p, Rook, co) +
        OfKind(p, Queen, co),
               OfKind(p, King, co));
  }

  lemma KeepLegalStep(p: Pos, ms: seq<Move>, i: nat)
    requires i < |ms|
    ensures KeepLegal(p, ms[i..]) == (if Legal(p, ms[i]) then [ms[i]] else []) + KeepLegal(p, ms[i + 1..])
  {
    hide Legal;
    assert ms[i..][1..] == ms[i + 1..];
  }

  lemma KeepLegalEnd(p: Pos, rest: seq<Move>, kept: seq<Move>)
    requires rest == []
    ensures kept + KeepLegal(p, rest) == kept
  {
  }

  /** Keep the legal ones of a list of moves, testing each on a scratch copy of the board. */
  method FilterLegal(b: Board, pseudo: seq<Move>, ml: MoveList)
    requires b.Valid() && b.ply < MAX_HISTORY && ml.moves == [] && |pseudo| <= MAX_MOVES
    requires forall m :: m in pseudo ==> Fits(b.Position(), m)
    modifies ml
    ensures ml.Valid() && ml.moves == KeepLegal(b.Position(), pseudo)
  {
    hide Fits, Legal, KeepLegal, Board.Coherent;
    ghost var p, st := b.Position(), b.Value();
    var tmp := new Board.Copy(b);
    var i := 0;
    assert pseudo[0..] == pseudo;
    while i < |pseudo|
      invariant 0 <= i <= |pseudo|
      invariant ml.Valid() && |ml.moves| <= i
      invariant ml.moves + KeepLegal(p, pseudo[i..]) == KeepLegal(p, pseudo)
      invariant tmp.Valid() && tmp.Value() == st
    {
      assert tmp.Position() == p && tmp.ply == |st.stack|;
      var legal := IsLegal(tmp, pseudo[i]);
      KeepLegalStep(p, pseudo, i);
      if legal { ml.Add(pseudo[i]); }
      i := i + 1;
    }
    KeepLegalEnd(p, pseudo[i..], ml.moves);
  }

  lemma ClippedFits(p: Pos)
    requires AllVouched(p)
    ensures forall m :: m in Clip(PseudoMoves(p)) ==> Fits(p, m)
  {
    hide PseudoMoves, Fits, Pseudo, Vouched;
    forall m | m in PseudoMoves(p) ensures Fits(p, m) {
      InPseudoMoves(p, m);
      VouchedFits(p, m);
    }
  }

  lemma CapturesFit(p: Pos)
    requires EpFree(p)
    ensures forall m :: m in Clip(PseudoCaptures(p)) ==> Fits(p, m)
  {
    hide PseudoMoves, PseudoCaptures, Fits, Pseudo, Vouched;
    CapturesOfPseudoMoves(p);
    forall m | m in PseudoCaptures(p) ensures Fits(p, m) {
      InCaptures(PseudoMoves(p), m);
      InPseudoMoves(p, m);
      CaptureVouched(p, m);
      VouchedFits(p, m);
    }
  }

  lemma {:induction false} InCaptures(ms: seq<Move>, m: Move)
    ensures m in CapturesOf(ms) <==> m in ms && IsCapture(m)
  {
    if ms != [] {
      InCaptures(ms[1..], m);
      assert ms == [ms[0]] + ms[1..];
    }
  }

  /** Whatever the generators return is a move of the rules that describes the position. */
  lemma GeneratedFits(p: Pos, m: Move)
    requires Sound(p) && (m in LegalMoves(p) || m in LegalCaptures(p))
    ensures Pseudo(p, m) && Fits(p, m)
  {
    hide Sound, PseudoMoves, PseudoCaptures, Fits, Pseudo, Legal, KeepLegal;
    InKeepLegal(p, Clip(PseudoMoves(p)), m);
    InKeepLegal(p, Clip(PseudoCaptures(p)), m);
    CapturesOfPseudoMoves(p);
    InCaptures(PseudoMoves(p), m);
    InPseudoMoves(p, m);
    PseudoFits(p, m);
  }

  method GenerateMoves(b: Board, ml: MoveList)
    requires b.Valid() && b.ply < MAX_HISTORY && AllVouched(b.Position())
    modifies ml
    ensures ml.Valid() && ml.moves == LegalMoves(b.Position())
  {
    hide AllVouched, ByKind, Castlings, KeepLegal, Fits, Board.Coherent;
    ghost var p := b.Position();
    var pseudo := new MoveList();
    PseudoInto(b, pseudo, false);
    AddCastlings(b, pseudo);
    ClipAppend(ByKind(p, false), Castlings(p));
    ClippedFits(p);
    ml.moves := [];
    FilterLegal(b, pseudo.moves, ml);
  }

  method GenerateCaptures(b: Board, ml: MoveList)
    requires b.Valid() && b.ply < MAX_HISTORY && EpFree(b.Position())
    modifies ml
    ensures ml.Valid() && ml.moves == LegalCaptures(b.Position())
  {
    hide EpFree, ByKind, KeepLegal, Fits, Board.Coherent;
    ml.moves := [];
    if b.mod == Truce && b.truceActive { return; }
    var pseudo := new MoveList();
    PseudoInto(b, pseudo, true);
    CapturesFit(b.Position());
    FilterLegal(b, pseudo.moves, ml);
  }

  method HasLegalMoves(b: Board) returns (some: bool)
    requires b.Valid() && b.ply < MAX_HISTORY && AllVouched(b.Position())
    ensures some <==> LegalMoves(b.Position()) != []
  {
    var ml := new MoveList();
    GenerateMoves(b, ml);
    some := |ml.moves| > 0;
  }
}
