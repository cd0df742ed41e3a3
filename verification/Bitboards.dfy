/** Bitboards as sets of squares, walked from the least significant bit upwards. */
module Bitboards {
  import opened Types

  predicate IsLsb(bb: Bitboard, x: Square) {
    x in bb && forall y :: y in bb ==> x <= y
  }

  lemma {:induction false} HasLsb(bb: Bitboard)
    requires bb != {}
    ensures exists x :: IsLsb(bb, x)
    decreases |bb|
  {
    var x: Square :| x in bb;
    var rest := bb - {x};
    if rest == {} {
      assert bb == {x};
      assert IsLsb(bb, x);
    } else {
      HasLsb(rest);
      var y :| IsLsb(rest, y);
      assert forall z :: z in bb ==> z == x || z in rest;
      assert IsLsb(bb, if x < y then x else y);
    }
  }

  /** The least square of a bitboard. */
  function Lsb(bb: Bitboard): (x: Square)
    requires bb != {}
    ensures IsLsb(bb, x)
  {
    HasLsb(bb);
    var x :| IsLsb(bb, x);
    x
  }

  /** The squares in the order in which popping the least bit yields them. */
  function Squares(bb: Bitboard): (r: seq<Square>)
    ensures forall x :: x in r <==> x in bb
    ensures |r| == |bb|
  {
    if bb == {} then []
    else
      var x := Lsb(bb);
      [x] + Squares(bb - {x})
  }

  /** Take the least bit off a bitboard. */
  method PopLsb(bb: Bitboard) returns (x: Square, rest: Bitboard)
    requires bb != {}
    ensures IsLsb(bb, x) && rest == bb - {x}
    ensures Squares(bb) == [x] + Squares(rest)
  {
    x := Lsb(bb);
    rest := bb - {x};
  }

  /** Dropping squares outside a mask commutes with popping. */
  lemma {:induction false} SquaresMask(bb: Bitboard, mask: Bitboard)
    requires bb != {}
    ensures Lsb(bb) in mask ==> Squares(bb * mask) == [Lsb(bb)] + Squares((bb - {Lsb(bb)}) * mask)
    ensures Lsb(bb) !in mask ==> bb * mask == (bb - {Lsb(bb)}) * mask
  {
    var x := Lsb(bb);
    if x in mask {
      assert IsLsb(bb * mask, x) && Lsb(bb * mask) == x;
      assert bb * mask - {x} == (bb - {x}) * mask;
    }
  }
}
