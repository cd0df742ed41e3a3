/** The attack generators of the engine: table initialisation and ray walking. */
module AttackTables {
  import opened Types
  import opened Attacks

  type Direction = d: (int, int) | IsDirection(d.0, d.1) witness (1, 0)

  const DIAGONALS: seq<Direction> := [(1, 1), (1, -1), (-1, 1), (-1, -1)]
  const ORTHOGONALS: seq<Direction> := [(1, 0), (-1, 0), (0, 1), (0, -1)]

  /** The union of the rays leaving a square in the given directions. */
  ghost function Rays(a: Square, dirs: seq<Direction>, occ: Bitboard): Bitboard {
    if dirs == [] then {}
    else Ray(Row(a) + dirs[0].0, Col(a) + dirs[0].1, dirs[0].0, dirs[0].1, occ) + Rays(a, dirs[1..], occ)
  }

  lemma {:induction false} RaysMeaning(a: Square, dirs: seq<Direction>, occ: Bitboard, b: Square)
    ensures b in Rays(a, dirs, occ) <==>
            ClearBetween(a, b, occ) && exists d :: d in dirs && Heading(a, b, d.0, d.1)
  {
    hide Ray, Heading, ClearBetween;
    if dirs != [] {
      RayFromHere(a, dirs[0], occ, b);
      RaysMeaning(a, dirs[1..], occ, b);
      assert dirs == [dirs[0]] + dirs[1..];
    }
  }

  lemma RayFromHere(a: Square, d: Direction, occ: Bitboard, b: Square)
    ensures b in Ray(Row(a) + d.0, Col(a) + d.1, d.0, d.1, occ) <==> Heading(a, b, d.0, d.1) && ClearBetween(a, b, occ)
  {
    hide Ray;
    RayMeaning(a, d.0, d.1, 1, occ, b);
    assert Along(Row(a), d.0, 1) == Row(a) + d.0 && Along(Col(a), d.1, 1) == Col(a) + d.1;
    assert Heading(a, b, d.0, d.1) ==> 1 <= Distance(a, b);
  }

  lemma BishopRays(a: Square, occ: Bitboard)
    ensures Rays(a, DIAGONALS, occ) == BishopTargets(a, occ)
  {
    forall b: Square ensures b in Rays(a, DIAGONALS, occ) <==> BishopReach(a, b, occ) {
      RaysMeaning(a, DIAGONALS, occ, b);
      assert DIAGONALS[0] == (1, 1) && DIAGONALS[1] == (1, -1) && DIAGONALS[2] == (-1, 1) && DIAGONALS[3] == (-1, -1);
    }
  }

  lemma RookRays(a: Square, occ: Bitboard)
    ensures Rays(a, ORTHOGONALS, occ) == RookTargets(a, occ)
  {
    forall b: Square ensures b in Rays(a, ORTHOGONALS, occ) <==> RookReach(a, b, occ) {
      RaysMeaning(a, ORTHOGONALS, occ, b);
      assert ORTHOGONALS[0] == (1, 0) && ORTHOGONALS[1] == (-1, 0) && ORTHOGONALS[2] == (0, 1) &&
          ORTHOGONALS[3] == (0, -1);
    }
  }

  /** Walk one direction until the board ends or a man stands in the way. */
  method WalkRay(r: int, c: int, d: Direction, occ: Bitboard, attacks: Bitboard) returns (more: Bitboard)
    ensures more == attacks + Ray(r, c, d.0, d.1, occ)
  {
    hide Ray, Sq;
    more := attacks;
    var dr, dc := d.0, d.1;
    var nr, nc := r, c;
    ghost var whole := attacks + Ray(r, c, dr, dc, occ);
    while OnBoard(nr, nc)
      invariant more + Ray(nr, nc, dr, dc, occ) == whole
      decreases if dr > 0 then 8 - nr else if dr < 0 then nr + 1 else if dc > 0 then 8 - nc else nc + 1
    {
      RayStep(nr, nc, dr, dc, occ);
      var s := Sq(nr, nc);
      UnionShift(more, {s}, Ray(nr + dr, nc + dc, dr, dc, occ));
      more := more + {s};
      if s in occ { return; }
      nr, nc := nr + dr, nc + dc;
    }
    RayStep(nr, nc, dr, dc, occ);
    assert more + {} == more;
  }

  lemma UnionShift(a: Bitboard, b: Bitboard, c: Bitboard)
    ensures (a + b) + c == a + (b + c)
  {
  }

  method WalkRays(a: Square, dirs: seq<Direction>, occ: Bitboard) returns (attacks: Bitboard)
    ensures attacks == Rays(a, dirs, occ)
  {
    hide Ray;
    attacks := {};
    var d := 0;
    while d < |dirs|
      invariant 0 <= d <= |dirs|
      invariant attacks + Rays(a, dirs[d..], occ) == Rays(a, dirs, occ)
    {
      assert dirs[d..][1..] == dirs[d + 1..];
      UnionShift(attacks, Ray(Row(a) + dirs[d].0, Col(a) + dirs[d].1, dirs[d].0, dirs[d].1, occ),
          Rays(a, dirs[d + 1..], occ));
      attacks := WalkRay(Row(a) + dirs[d].0, Col(a) + dirs[d].1, dirs[d], occ, attacks);
      d := d + 1;
    }
  }

  method BishopAttacks(a: Square, occ: Bitboard) returns (attacks: Bitboard)
    ensures attacks == BishopTargets(a, occ)
  {
    attacks := WalkRays(a, DIAGONALS, occ);
    BishopRays(a, occ);
  }

  method RookAttacks(a: Square, occ: Bitboard) returns (attacks: Bitboard)
    ensures attacks == RookTargets(a, occ)
  {
    attacks := WalkRays(a, ORTHOGONALS, occ);
    RookRays(a, occ);
  }

  // ---- Step tables -------------------------------------------------------

  const KNIGHT_JUMPS: seq<(int, int)> := [(-2, -1), (-2, 1), (-1, -2), (-1, 2), (1, -2), (1, 2), (2, -1), (2, 1)]

  ghost predicate Jump(a: Square, b: Square, d: (int, int)) {
    Row(b) == Row(a) + d.0 && Col(b) == Col(a) + d.1
  }

  /** One of the first n jumps leads from a to b. */
  ghost predicate Jumps(a: Square, b: Square, n: int)
    requires n <= 8
  {
    exists j :: 0 <= j < n && Jump(a, b, KNIGHT_JUMPS[j])
  }

  lemma KnightJumps(a: Square, b: Square)
    ensures KnightStep(a, b) <==> Jumps(a, b, 8)
  {
    if KnightStep(a, b) {
      var d := (Row(b) - Row(a), Col(b) - Col(a));
      assert d == KNIGHT_JUMPS[0] || d == KNIGHT_JUMPS[1] || d == KNIGHT_JUMPS[2] || d == KNIGHT_JUMPS[3]
          || d == KNIGHT_JUMPS[4] || d == KNIGHT_JUMPS[5] || d == KNIGHT_JUMPS[6] || d == KNIGHT_JUMPS[7];
    }
  }

  method KnightTable(a: Square) returns (bb: Bitboard)
    ensures bb == KnightTargets(a)
  {
    bb := {};
    for i := 0 to 8
      invariant bb == set b: Square | Jumps(a, b, i)
    {
      var nr, nc := Row(a) + KNIGHT_JUMPS[i].0, Col(a) + KNIGHT_JUMPS[i].1;
      if OnBoard(nr, nc) {
        assert Jump(a, Sq(nr, nc), KNIGHT_JUMPS[i]);
        assert forall b: Square :: Jump(a, b, KNIGHT_JUMPS[i]) ==> b == Sq(nr, nc);
        bb := bb + {Sq(nr, nc)};
      }
    }
    forall b: Square { KnightJumps(a, b); }
  }

  method KingTable(a: Square) returns (bb: Bitboard)
    ensures bb == KingTargets(a)
  {
    bb := {};
    for dr := -1 to 2
      invariant bb == set b: Square | KingStep(a, b) && Row(b) - Row(a) < dr
    {
      for dc := -1 to 2
        invariant bb == set b: Square | KingStep(a, b) &&
                          (Row(b) - Row(a) < dr || (Row(b) - Row(a) == dr && Col(b) - Col(a) < dc))
      {
        if dr != 0 || dc != 0 {
          var nr, nc := Row(a) + dr, Col(a) + dc;
          if OnBoard(nr, nc) {
            assert forall b: Square :: Row(b) == nr && Col(b) == nc ==> b == Sq(nr, nc);
            bb := bb + {Sq(nr, nc)};
          }
        }
      }
    }
  }

  method PawnTable(c: Color, a: Square) returns (bb: Bitboard)
    ensures bb == PawnTargets(c, a)
  {
    bb := {};
    var nr, col := Row(a) + Dir(c), Col(a);
    forall b: Square ensures PawnStep(c, a, b) <==>
      0 <= nr < 8 && ((col > 0 && b == Sq(nr, col - 1)) || (col < 7 && b == Sq(nr, col + 1)))
    {
    }
    if 0 <= nr < 8 && col > 0 { bb := bb + {Sq(nr, col - 1)}; }
    if 0 <= nr < 8 && col < 7 { bb := bb + {Sq(nr, col + 1)}; }
  }

  /** The tables of single-step attacks, filled square by square. */
  method InitAttacks() returns (knight: array<Bitboard>, king: array<Bitboard>, pawn: array2<Bitboard>)
    ensures fresh(knight) && fresh(king) && fresh(pawn)
    ensures knight.Length == 64 && king.Length == 64 && pawn.Length0 == 2 && pawn.Length1 == 64
    ensures forall s: Square :: knight[s] == KnightTargets(s) && king[s] == KingTargets(s)
    ensures forall s: Square :: pawn[0, s] == PawnTargets(White, s) && pawn[1, s] == PawnTargets(Black, s)
  {
    knight, king, pawn := new Bitboard[64], new Bitboard[64], new Bitboard[2, 64];
    for sq := 0 to 64
      invariant forall s: Square :: s < sq ==> knight[s] == KnightTargets(s) && king[s] == KingTargets(s)
      invariant forall s: Square :: s < sq ==>
                pawn[0, s] == PawnTargets(White, s) && pawn[1, s] == PawnTargets(Black, s)
    {
      var a: Square := sq;
      knight[sq] := KnightTable(a);
      king[sq] := KingTable(a);
      pawn[0, sq] := PawnTable(White, a);
      pawn[1, sq] := PawnTable(Black, a);
    }
  }
}
