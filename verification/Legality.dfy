/** Legal moves: those generated moves after which the mover's king is safe. */
module Legality {
  import opened Types
  import opened Bitboards
  import opened Position
  import opened Attacks
  import opened Making
  import opened Rules
  import opened MoveLists
  import opened Captures

  const MAX_MOVES := 256

  /** A move list holds 256 moves and drops the rest. */
  function Clip(ms: seq<Move>): seq<Move> { if |ms| <= MAX_MOVES then ms else ms[..MAX_MOVES] }

  lemma ClipAppend(a: seq<Move>, b: seq<Move>)
    ensures Clip(Clip(a) + b) == Clip(a + b)
  {
  }

  /** Truce: a move may not attack the other king either. */
  predicate GivesTruceCheck(q: Pos, mover: Color) {
    var kings := Of(q.at, Opposite(mover), King);
    InTruce(q) && kings != {} && Attacked(q, Lsb(kings), mover)
  }

  predicate LegalAfter(q: Pos, mover: Color) { !InCheck(q, mover) && !GivesTruceCheck(q, mover) }

  predicate Legal(p: Pos, m: Move) { LegalAfter(Next(p, m), p.side) }

  function KeepLegal(p: Pos, ms: seq<Move>): (r: seq<Move>)
    ensures |r| <= |ms|
  {
    if ms == [] then [] else (if Legal(p, ms[0]) then [ms[0]] else []) + KeepLegal(p, ms[1..])
  }

  function LegalMoves(p: Pos): seq<Move> { KeepLegal(p, Clip(PseudoMoves(p))) }

  function LegalCaptures(p: Pos): seq<Move> {
    if InTruce(p) then [] else KeepLegal(p, Clip(PseudoCaptures(p)))
  }

  lemma {:induction false} InKeepLegal(p: Pos, ms: seq<Move>, m: Move)
    ensures m in KeepLegal(p, ms) <==> m in ms && Legal(p, m)
  {
    hide Legal;
    if ms != [] {
      InKeepLegal(p, ms[1..], m);
      assert ms == [ms[0]] + ms[1..];
    }
  }

  lemma {:induction false} CapturesOfLegal(p: Pos, ms: seq<Move>)
    ensures CapturesOf(KeepLegal(p, ms)) == KeepLegal(p, CapturesOf(ms))
  {
    if ms != [] {
      var m, rest := ms[0], ms[1..];
      CapturesOfLegal(p, rest);
      KeepsHead(p, m, rest, ms);
      TakesHead(m, rest, ms);
      KeepsHead(p, m, CapturesOf(rest), [m] + CapturesOf(rest));
      TakesHead(m, KeepLegal(p, rest), [m] + KeepLegal(p, rest));
      hide KeepLegal, CapturesOf, Legal;
    }
  }

  lemma KeepsHead(p: Pos, m: Move, rest: seq<Move>, ms: seq<Move>)
    requires ms == [m] + rest
    ensures KeepLegal(p, ms) == if Legal(p, m) then [m] + KeepLegal(p, rest) else KeepLegal(p, rest)
  {
    hide Legal;
    assert ms[1..] == rest;
  }

  lemma TakesHead(m: Move, rest: seq<Move>, ms: seq<Move>)
    requires ms == [m] + rest
    ensures CapturesOf(ms) == if IsCapture(m) then [m] + CapturesOf(rest) else CapturesOf(rest)
  {
    assert ms[1..] == rest;
  }

  lemma {:induction false} FewerCaptures(ms: seq<Move>)
    ensures |CapturesOf(ms)| <= |ms|
  {
    if ms != [] { FewerCaptures(ms[1..]); }
  }

  /** Everything the generator returns is legal; and, when no move is dropped, everything legal is
      returned. */
  lemma LegalMovesAreLegal(p: Pos, m: Move)
    ensures m in LegalMoves(p) ==> Pseudo(p, m) && Legal(p, m)
    ensures |PseudoMoves(p)| <= MAX_MOVES ==> (m in LegalMoves(p) <==> Pseudo(p, m) && Legal(p, m))
  {
    hide Pseudo, Legal, PseudoMoves, KeepLegal;
    InKeepLegal(p, Clip(PseudoMoves(p)), m);
    InPseudoMoves(p, m);
  }

  /** In every mod the capture generator returns exactly the captures of the full generator, in the
      same order, as long as no move is dropped. */
  lemma LegalCapturesExactly(p: Pos)
    requires |PseudoMoves(p)| <= MAX_MOVES
    ensures LegalCaptures(p) == CapturesOf(LegalMoves(p))
  {
    hide Legal, PseudoMoves, PseudoCaptures, KeepLegal, CapturesOf;
    CapturesOfPseudoMoves(p);
    FewerCaptures(PseudoMoves(p));
    CapturesOfLegal(p, PseudoMoves(p));
    if InTruce(p) {
      TruceTakesNothing(p);
    }
  }

  lemma TruceTakesNothing(p: Pos)
    requires InTruce(p)
    ensures CapturesOf(LegalMoves(p)) == []
  {
    hide CapturesOf, KeepLegal, PseudoMoves, Pseudo, Legal;
    forall m | m in LegalMoves(p) ensures !IsCapture(m) {
      LegalMovesAreLegal(p, m);
      TruceQuiet(p, m);
    }
    AllOrNone(LegalMoves(p));
  }

  lemma TruceQuiet(p: Pos, m: Move)
    requires InTruce(p) && Pseudo(p, m)
    ensures !IsCapture(m)
  {
    hide MayCastle, WaySafe, CheckMatters, MayBecome, AwayFromHeir, QueenMove, Reaches;
  }
}
