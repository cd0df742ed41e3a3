/** What the hash depends on: each man and each flag enters it through a key of its own, and nothing else does. */
module HashLaws {
  import opened Types
  import opened Bitboards
  import opened Position
  import opened Making

  // ---- Men ---------------------------------------------------------------------------------

  lemma XorShift(h: Word, a: Word, b: Word)
    ensures Xor(Xor(h, a), b) == Xor(Xor(h, b), a)
  {
  }

  lemma {:induction false} SquaresShift(keys: Keys, c: Color, k: Kind, squares: seq<Square>, h: Word, a: Word)
    ensures HashSquares(keys, c, k, squares, Xor(h, a)) == Xor(HashSquares(keys, c, k, squares, h), a)
    decreases |squares|
  {
    hide Xor;
    if squares != [] {
      var key := keys.piece(c, k, squares[0]);
      XorShift(h, a, key);
      SquaresShift(keys, c, k, squares[1..], Xor(h, key), a);
    }
  }

  /** One more man of a kind enters with its key, wherever it comes in the order. */
  lemma {:induction false} OneMoreSquare(keys: Keys, c: Color, k: Kind, bb: Bitboard, s: Square, h: Word)
    requires s !in bb
    ensures HashSquares(keys, c, k, Squares(bb + {s}), h) ==
            Xor(HashSquares(keys, c, k, Squares(bb), h), keys.piece(c, k, s))
    decreases |bb|
  {
    hide Xor;
    var more := bb + {s};
    var x := Lsb(more);
    if x == s {
      assert more - {s} == bb;
      assert Squares(more) == [s] + Squares(bb);
      SquaresShift(keys, c, k, Squares(bb), h, keys.piece(c, k, s));
    } else {
      assert x in bb && IsLsb(bb, x);
      SameLsb(bb, x);
      assert more - {x} == (bb - {x}) + {s};
      OneMoreSquare(keys, c, k, bb - {x}, s, Xor(h, keys.piece(c, k, x)));
      assert Squares(more) == [x] + Squares(more - {x}) && Squares(bb) == [x] + Squares(bb - {x});
    }
  }

  lemma SameLsb(bb: Bitboard, x: Square)
    requires IsLsb(bb, x)
    ensures bb != {} && Lsb(bb) == x
  {
  }

  ghost predicate Distinct(kinds: seq<Kind>) { forall i, j :: 0 <= i < j < |kinds| ==> kinds[i] != kinds[j] }

  lemma {:induction false} KindsShift(keys: Keys, at: Placement, c: Color, kinds: seq<Kind>, h: Word, a: Word)
    ensures HashKinds(keys, at, c, kinds, Xor(h, a)) == Xor(HashKinds(keys, at, c, kinds, h), a)
    decreases |kinds|
  {
    hide Xor, HashSquares, Squares, Of;
    if kinds != [] {
      var squares := Squares(Of(at, c, kinds[0]));
      SquaresShift(keys, c, kinds[0], squares, h, a);
      KindsShift(keys, at, c, kinds[1..], HashSquares(keys, c, kinds[0], squares, h), a);
    }
  }

  lemma MenAfter(at: Placement, s: Square, c: Color, k: Kind, d: Color, l: Kind)
    requires at[s] == Empty
    ensures Of(at[s := Man(c, k)], d, l) == if c == d && k == l then Of(at, d, l) + {s} else Of(at, d, l)
  {
  }

  lemma KindsStep(keys: Keys, at: Placement, c: Color, l: Kind, rest: seq<Kind>, h: Word)
    ensures HashKinds(keys, at, c, [l] + rest, h) ==
            HashKinds(keys, at, c, rest, HashSquares(keys, c, l, Squares(Of(at, c, l)), h))
  {
    hide HashSquares, Squares, Of;
    assert ([l] + rest)[1..] == rest;
  }

  lemma {:induction false} OneMoreOfKinds(keys: Keys, at: Placement, s: Square, c: Color, k: Kind, d: Color,
      kinds: seq<Kind>, h: Word)
    requires at[s] == Empty && Distinct(kinds)
    ensures HashKinds(keys, at[s := Man(c, k)], d, kinds, h) ==
            if c == d && k in kinds then Xor(HashKinds(keys, at, d, kinds, h), keys.piece(c, k, s))
            else HashKinds(keys, at, d, kinds, h)
    decreases |kinds|
  {
    if kinds != [] {
      var l, rest, more := kinds[0], kinds[1..], at[s := Man(c, k)];
      assert kinds == [l] + rest && l !in rest && Distinct(rest);
      KindsStep(keys, at, d, l, rest, h);
      KindsStep(keys, more, d, l, rest, h);
      MenAfter(at, s, c, k, d, l);
      var inner := HashSquares(keys, d, l, Squares(Of(at, d, l)), h);
      hide Xor, HashSquares, Squares, Of, HashKinds, Distinct;
      if c == d && k == l {
        NotThere(at, s, c, k);
        OneMoreSquare(keys, c, k, Of(at, d, l), s, h);
        OneMoreOfKinds(keys, at, s, c, k, d, rest, Xor(inner, keys.piece(c, k, s)));
        KindsShift(keys, at, d, rest, inner, keys.piece(c, k, s));
      } else {
        OneMoreOfKinds(keys, at, s, c, k, d, rest, inner);
      }
    }
  }

  lemma NotThere(at: Placement, s: Square, c: Color, k: Kind)
    requires at[s] == Empty
    ensures s !in Of(at, c, k)
  {
  }

  lemma KindsDistinct()
    ensures Distinct(KINDS) && forall k: Kind :: k in KINDS
  {
    forall k: Kind ensures k in KINDS { assert KINDS[KindCode(k)] == k; }
  }

  lemma OneMoreMan(keys: Keys, at: Placement, s: Square, c: Color, k: Kind)
    requires at[s] == Empty
    ensures HashColors(keys, at[s := Man(c, k)], COLORS, {}) ==
            Xor(HashColors(keys, at, COLORS, {}), keys.piece(c, k, s))
  {
    KindsDistinct();
    TwoColors(keys, at);
    TwoColors(keys, at[s := Man(c, k)]);
    var white := HashKinds(keys, at, White, KINDS, {});
    hide HashKinds, HashColors, Xor, Distinct;
    OneMoreOfKinds(keys, at, s, c, k, White, KINDS, {});
    if c == White {
      OneMoreOfKinds(keys, at, s, c, k, Black, KINDS, Xor(white, keys.piece(c, k, s)));
      KindsShift(keys, at, Black, KINDS, white, keys.piece(c, k, s));
    } else {
      OneMoreOfKinds(keys, at, s, c, k, Black, KINDS, white);
    }
  }

  lemma TwoColors(keys: Keys, at: Placement)
    ensures HashColors(keys, at, COLORS, {}) == HashKinds(keys, at, Black, KINDS, HashKinds(keys, at, White, KINDS, {}))
  {
    hide HashKinds;
    assert COLORS[1..] == [Black] && [Black][1..] == [];
    assert HashColors(keys, at, [Black], HashKinds(keys, at, White, KINDS, {})) ==
           HashColors(keys, at, [], HashKinds(keys, at, Black, KINDS, HashKinds(keys, at, White, KINDS, {})));
  }

  /** A man put on an empty square changes the hash by its own key. */
  lemma ManEnters(keys: Keys, p: Pos, s: Square, c: Color, k: Kind)
    requires p.at[s] == Empty
    ensures Hash(keys, p.(at := p.at[s := Man(c, k)])) == Xor(Hash(keys, p), keys.piece(c, k, s))
  {
    OneMoreMan(keys, p.at, s, c, k);
    FlagsShift(keys, p, p.at[s := Man(c, k)], HashColors(keys, p.at, COLORS, {}), keys.piece(c, k, s));
    hide HashColors, HashFlags, Xor;
  }

  lemma FlagsShift(keys: Keys, p: Pos, at: Placement, h: Word, a: Word)
    ensures HashFlags(keys, p.(at := at), Xor(h, a)) == Xor(HashFlags(keys, p, h), a)
  {
  }

  // ---- Flags -----------------------------------------------------------------------------------

  /** Each flag changes the hash by the keys of its old and its new value. */
  lemma SideEnters(keys: Keys, p: Pos)
    ensures Hash(keys, p.(side := Opposite(p.side))) == Xor(Hash(keys, p), keys.side)
  {
    var h := HashColors(keys, p.at, COLORS, {});
    hide HashColors;
  }

  lemma RightsEnter(keys: Keys, p: Pos, r: Rights)
    ensures Hash(keys, p.(castling := r)) == Xor(Xor(Hash(keys, p), keys.castle(p.castling)), keys.castle(r))
  {
    var h := HashColors(keys, p.at, COLORS, {});
    hide HashColors;
  }

  lemma EpEnters(keys: Keys, p: Pos, s: Square)
    requires p.ep == NO_SQUARE
    ensures Hash(keys, p.(ep := s)) == Xor(Hash(keys, p), keys.ep(s))
  {
    var h := HashColors(keys, p.at, COLORS, {});
    hide HashColors;
  }

  lemma HeirsEnter(keys: Keys, p: Pos)
    ensures !p.heirWhite ==> Hash(keys, p.(heirWhite := true)) == Xor(Hash(keys, p), keys.heir(White))
    ensures !p.heirBlack ==> Hash(keys, p.(heirBlack := true)) == Xor(Hash(keys, p), keys.heir(Black))
  {
    var h := HashColors(keys, p.at, COLORS, {});
    hide HashColors;
  }

  lemma PhasesEnter(keys: Keys, p: Pos)
    ensures !p.truceActive ==> Hash(keys, p.(truceActive := true)) == Xor(Hash(keys, p), keys.truce)
    ensures !p.kbUnlocked ==> Hash(keys, p.(kbUnlocked := true)) == Xor(Hash(keys, p), keys.unlocked)
  {
    var h := HashColors(keys, p.at, COLORS, {});
    hide HashColors;
  }

  /** Clocks, marks, idle count and the mod itself do not enter. */
  lemma TheRestDoesNot(keys: Keys, p: Pos, q: Pos)
    requires q == p.(halfmove := q.halfmove, fullmove := q.fullmove, mod := q.mod, frozen := q.frozen,
                     ffMoved := q.ffMoved, kbIdle := q.kbIdle)
    ensures Hash(keys, p) == Hash(keys, q)
  {
    hide HashColors;
  }

  /** The bare board with White to move and no flag set has the key of its rights alone. */
  lemma BareHash(keys: Keys, p: Pos)
    requires p.at == Bare() && p.side == White && p.ep == NO_SQUARE
    requires !p.heirWhite && !p.heirBlack && !p.truceActive && !p.kbUnlocked
    ensures Hash(keys, p) == keys.castle(p.castling)
  {
    TwoColors(keys, p.at);
    NoMen(keys, White, KINDS, {});
    NoMen(keys, Black, KINDS, {});
    hide HashKinds, HashColors;
  }

  lemma {:induction false} NoMen(keys: Keys, c: Color, kinds: seq<Kind>, h: Word)
    ensures HashKinds(keys, Bare(), c, kinds, h) == h
    decreases |kinds|
  {
    if kinds != [] {
      assert Of(Bare(), c, kinds[0]) == {};
      NoMen(keys, c, kinds[1..], h);
    }
  }
}
