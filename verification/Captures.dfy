/** The capture generator yields exactly the captures among all moves, in the same order. */
module Captures {
  import opened Types
  import opened Bitboards
  import opened Position
  import opened Attacks
  import opened Rules
  import opened MoveLists

  /** The captures of a list, in order. */
  function CapturesOf(ms: seq<Move>): seq<Move> {
    if ms == [] then [] else (if IsCapture(ms[0]) then [ms[0]] else []) + CapturesOf(ms[1..])
  }

  lemma {:induction false} CapturesConcat(a: seq<Move>, b: seq<Move>)
    ensures CapturesOf(a + b) == CapturesOf(a) + CapturesOf(b)
  {
    if a == [] {
      assert a + b == b;
    } else {
      assert (a + b)[1..] == a[1..] + b;
      CapturesConcat(a[1..], b);
    }
  }

  lemma {:induction false} AllOrNone(ms: seq<Move>)
    ensures (forall m :: m in ms ==> IsCapture(m)) ==> CapturesOf(ms) == ms
    ensures (forall m :: m in ms ==> !IsCapture(m)) ==> CapturesOf(ms) == []
  {
    if ms != [] {
      AllOrNone(ms[1..]);
      assert ms == [ms[0]] + ms[1..];
    }
  }

  /** Restricting the targets to occupied squares keeps the captures, in order. */
  lemma {:induction false} CapturesEmit(p: Pos, k: Kind, from: Square, bb: Bitboard, mask: Bitboard)
    requires forall to :: to in bb ==> (p.at[to].Man? <==> to in mask)
    ensures CapturesOf(Emit(p, k, from, Squares(bb))) == Emit(p, k, from, Squares(bb * mask))
    decreases |bb|
  {
    hide Skipped;
    if bb == {} {
      assert bb * mask == {};
    } else {
      var x := Lsb(bb);
      var rest := bb - {x};
      CapturesEmit(p, k, from, rest, mask);
      SquaresMask(bb, mask);
      CapturesConcat(Emission(p, k, from, x), Emit(p, k, from, Squares(rest)));
      AllOrNone(Emission(p, k, from, x));
      assert Squares(bb) == [x] + Squares(rest);
    }
  }

  lemma CapturesQueen(p: Pos, from: Square)
    ensures CapturesOf(QueenList(p, from, false)) == QueenList(p, from, true)
  {
    hide KingStep, Reaches, OwnHalf;
    if !OwnHalf(from, p.side) {
      CapturesEmit(p, Queen, from, KingTargets(from) - All(p.at), {});
      assert (KingTargets(from) - All(p.at)) * {} == {};
    } else {
      var own, theirs := EscapedTargets(p, from, false), Occupied(p.at, Opposite(p.side));
      CapturesEmit(p, Queen, from, own, theirs);
      assert own * theirs == EscapedTargets(p, from, true);
      CapturesEmit(p, Queen, from, Crossings(p, from), {});
      assert Crossings(p, from) * {} == {};
      CapturesConcat(Emit(p, Queen, from, Squares(own)), Emit(p, Queen, from, Squares(Crossings(p, from))));
    }
  }

  lemma CapturesPiece(p: Pos, k: Kind, from: Square)
    ensures CapturesOf(PieceFrom(p, k, from, false)) == PieceFrom(p, k, from, true)
  {
    if p.mod == SaveQueen && k == Queen {
      CapturesQueen(p, from);
    } else {
      CapturesEmit(p, k, from, Targets(p, k, from), CaptureMask(p));
    }
  }

  lemma CapturesMercenary(p: Pos, from: Square)
    requires p.mod == Mercenary
    ensures CapturesOf(PawnFrom(p, from, false)) == PawnFrom(p, from, true)
  {
    hide KingStep;
    var theirs := Occupied(p.at, Opposite(p.side));
    var quiet, caps := KingTargets(from) - All(p.at), KingTargets(from) * theirs;
    CapturesEmit(p, Pawn, from, quiet, {});
    CapturesEmit(p, Pawn, from, caps, theirs);
    assert quiet * {} == {} && caps * theirs == caps;
    CapturesConcat(Emit(p, Pawn, from, Squares(quiet)), Emit(p, Pawn, from, Squares(caps)));
    assert [] + Emit(p, Pawn, from, Squares(caps)) == Emit(p, Pawn, from, Squares(caps));
  }

  lemma CapturesPawn(p: Pos, from: Square)
    requires p.at[from] == Man(p.side, Pawn)
    ensures CapturesOf(PawnFrom(p, from, false)) == PawnFrom(p, from, true)
  {
    if p.mod == Mercenary {
      CapturesMercenary(p, from);
    } else {
      hide Push, DoublePush, PawnTakes, TakesEnPassant, Pushes, Sideways;
      var sides := if InTruce(p) then [] else Sideways(p, from, -1) + Sideways(p, from, 1);
      forall m ensures m in Pushes(p, from) ==> !IsCapture(m) { PushIsQuiet(p, from, m); }
      forall m ensures m in sides ==> IsCapture(m) { SidewaysTakes(p, from, m); }
      AllOrNone(Pushes(p, from));
      AllOrNone(sides);
      CapturesConcat(Pushes(p, from), sides);
      assert [] + sides == sides;
    }
  }

  lemma PushIsQuiet(p: Pos, from: Square, m: Move)
    requires p.at[from] == Man(p.side, Pawn)
    ensures m in Pushes(p, from) ==> !IsCapture(m)
  {
    InPushes(p, from, m);
  }

  lemma SidewaysTakes(p: Pos, from: Square, m: Move)
    requires p.at[from] == Man(p.side, Pawn)
    ensures !InTruce(p) && m in Sideways(p, from, -1) + Sideways(p, from, 1) ==> IsCapture(m)
  {
    if !InTruce(p) {
      InSideways(p, from, -1, m);
      InSideways(p, from, 1, m);
    }
  }

  lemma {:induction false} CapturesFromAll(p: Pos, k: Kind, froms: seq<Square>)
    requires forall s :: s in froms ==> p.at[s] == Man(p.side, k)
    ensures CapturesOf(FromAll(p, k, froms, false)) == FromAll(p, k, froms, true)
  {
    if froms != [] {
      if k == Pawn { CapturesPawn(p, froms[0]); } else { CapturesPiece(p, k, froms[0]); }
      CapturesFromAll(p, k, froms[1..]);
      CapturesConcat(FromOne(p, k, froms[0], false), FromAll(p, k, froms[1..], false));
    }
  }

  lemma CapturesOfKind(p: Pos, k: Kind)
    ensures CapturesOf(OfKind(p, k, false)) == OfKind(p, k, true)
  {
    CapturesFromAll(p, k, Squares(Movers(p, k)));
  }

  /** For every position of every mod: the pseudo-legal captures are generated in the order in which
      they occur among the pseudo-legal moves. */
  lemma CapturesOfPseudoMoves(p: Pos)
    ensures CapturesOf(PseudoMoves(p)) == PseudoCaptures(p)
  {
    hide OfKind, Castlings;
    var P, N, B := OfKind(p, Pawn, false), OfKind(p, Knight, false), OfKind(p, Bishop, false);
    var R, Q, K := OfKind(p, Rook, false), OfKind(p, Queen, false), OfKind(p, King, false);
    CapturesOfKind(p, Pawn);
    CapturesOfKind(p, Knight);
    CapturesOfKind(p, Bishop);
    CapturesOfKind(p, Rook);
    CapturesOfKind(p, Queen);
    CapturesOfKind(p, King);
    CapturesConcat(P, N);
    CapturesConcat(P + N, B);
    CapturesConcat(P + N + B, R);
    CapturesConcat(P + N + B + R, Q);
    CapturesConcat(P + N + B + R + Q, K);
    CapturesConcat(ByKind(p, false), Castlings(p));
    CastlingsQuiet(p);
  }

  lemma CastlingsQuiet(p: Pos)
    ensures CapturesOf(Castlings(p)) == []
  {
    AllOrNone(Castlings(p));
  }
}
