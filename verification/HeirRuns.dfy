/** Heir: a king can be taken while its castling right survives. The generator may then castle with a king
    that is not there, and unmaking that castling conjures one up. Walks that make and unmake moves heal
    all the same: unmaking the capture that took the king puts its square right. */
module HeirRuns {
  import opened Types
  import opened Position
  import opened Attacks
  import opened Making
  import opened Rules
  import opened Reachable
  import opened Runs
  import opened Legality

  // ---- Positions that differ on stranded homes ---------------------------------------------

  /** The home squares of the kings. */
  const HOMES: Bitboard := {4, 60}

  /** The two positions are the same, squares of e aside. */
  ghost predicate Near(p: Pos, q: Pos, e: Bitboard) {
    p == q.(at := p.at) && forall s: Square :: s !in e ==> p.at[s] == q.at[s]
  }

  /** A right has its rook at home, and its king unless that home is in e. */
  predicate WingLoose(p: Pos, w: Wing, e: Bitboard) {
    HasRight(p.castling, w) ==>
      && p.at[RookHome(w)] == Man(w.color, Rook)
      && (p.at[KingHome(w.color)] == Man(w.color, King) || KingHome(w.color) in e)
  }

  /** A Heir position that is sound but for kings missing from the homes in e. */
  predicate Loose(p: Pos, e: Bitboard) {
    && p.mod == Heir && e <= HOMES && EpSound(p)
    && WingLoose(p, Wing(White, true), e) && WingLoose(p, Wing(White, false), e)
    && WingLoose(p, Wing(Black, true), e) && WingLoose(p, Wing(Black, false), e)
  }

  lemma SoundIsLoose(p: Pos)
    requires Sound(p) && p.mod == Heir
    ensures Loose(p, {})
  {
  }

  /** A king's home that the move lands on may have lost its king. */
  function Stranded(e: Bitboard, m: Move): Bitboard { e + {m.to} * HOMES }

  /** What a move generated in a loose position looks like. */
  lemma LooseShape(p: Pos, m: Move, e: Bitboard)
    requires Loose(p, e) && Pseudo(p, m)
    ensures m.from != m.to && (!m.castle ==> Fits(p, m))
    ensures m.ep ==> !m.castle && 0 < Row(Victim(m)) < 7 && 0 < Row(m.to) < 7
    ensures m.castle ==>
              && !m.ep && !IsCapture(m) && m.promo.None? && m.piece == King && m.from == KingHome(p.side)
              && CastlingRook(m.to).Some? && CastlingRook(m.to).value.2 == p.side
              && p.at[m.to] == Empty && p.at[CastlingRook(m.to).value.1] == Empty
              && p.at[CastlingRook(m.to).value.0] == Man(p.side, Rook)
              && (p.at[m.from] == Man(p.side, King) || m.from in e)
  {
    hide Pseudo, EpSound;
    if m.castle {
      CastleShape(p, m);
      CastlesWithRight(p, m);
    } else {
      if m.ep { EpShape(p, m); EpFar(p, m); }
      VouchedFits(p, m);
    }
  }

  lemma CastlesWithRight(p: Pos, m: Move)
    requires Pseudo(p, m) && m.castle
    ensures HasRight(p.castling, Wing(p.side, m.to % 8 == 6))
  {
    hide MayCastle, WaySafe, CheckMatters, WayClear;
  }

  lemma EpFar(p: Pos, m: Move)
    requires EpSound(p) && TakesEnPassant(p, m)
    ensures 0 < Row(Victim(m)) < 7 && 0 < Row(m.to) < 7 && p.at[m.to] == Empty
  {
  }

  lemma RightSurvives(p: Pos, m: Move, w: Wing)
    requires HasRight(RightsAfter(p, m), w)
    ensures HasRight(p.castling, w) && m.to != RookHome(w)
    ensures !(m.piece == King && p.side == w.color) && !(m.piece == Rook && m.from == RookHome(w))
  {
  }

  /** While the right survives, the move touches neither its rook nor its king, unless it lands on him. */
  lemma WingUntouched(p: Pos, m: Move, e: Bitboard, w: Wing)
    requires Loose(p, e) && Pseudo(p, m) && HasRight(RightsAfter(p, m), w)
    ensures p.at[RookHome(w)] == Man(w.color, Rook) ==> !Touches(m, RookHome(w))
    ensures p.at[KingHome(w.color)] == Man(w.color, King) && m.to != KingHome(w.color) ==>
            !Touches(m, KingHome(w.color))
  {
    hide Pseudo, Loose, RightsAfter;
    LooseShape(p, m, e);
    RightSurvives(p, m, w);
    assert m.castle ==> p.side != w.color;
  }

  lemma WingLooseKept(p: Pos, m: Move, e: Bitboard, w: Wing)
    requires Loose(p, e) && Pseudo(p, m) && WingLoose(p, w, e)
    ensures WingLoose(Next(p, m), w, Stranded(e, m))
  {
    assert Next(p, m).at == AfterMove(p, m) && Next(p, m).castling == RightsAfter(p, m) && p.mod != SaveQueen;
    hide Pseudo, Loose, Next, AfterMove, Touches, RightsAfter, CastlingRook;
    LooseShape(p, m, e);
    if HasRight(RightsAfter(p, m), w) {
      RightSurvives(p, m, w);
      WingUntouched(p, m, e, w);
      OtherMenStay(p, m, RookHome(w));
      if KingHome(w.color) !in Stranded(e, m) { OtherMenStay(p, m, KingHome(w.color)); }
    }
  }

  /** Outside Save the Queen a man that the move does not touch stays. */
  lemma OtherMenStay(p: Pos, m: Move, s: Square)
    requires p.mod != SaveQueen && p.at[s] != Empty && !Touches(m, s)
    requires m.castle ==> CastlingRook(m.to).Some? && p.at[CastlingRook(m.to).value.1] == Empty
    ensures AfterMove(p, m)[s] == p.at[s]
  {
  }

  lemma LooseKept(p: Pos, m: Move, e: Bitboard)
    requires Loose(p, e) && Pseudo(p, m)
    ensures Loose(Next(p, m), Stranded(e, m))
  {
    hide Pseudo, EpSound, Next, WingLoose;
    EpKept(p, m);
    NextMod(p, m);
    WingLooseKept(p, m, e, Wing(White, true));
    WingLooseKept(p, m, e, Wing(White, false));
    WingLooseKept(p, m, e, Wing(Black, true));
    WingLooseKept(p, m, e, Wing(Black, false));
  }

  /** In Heir nothing but the placement depends on the placement. */
  lemma SameFlags(p: Pos, q: Pos, m: Move)
    requires p == q.(at := p.at) && q.mod == Heir
    ensures Next(p, m) == Next(q, m).(at := AfterMove(p, m))
  {
    hide AfterMove;
  }

  /** A move made in both of two near positions leaves them near. */
  lemma NearStep(p: Pos, q: Pos, m: Move, e: Bitboard)
    requires Near(p, q, e) && q.mod == Heir
    ensures Near(Next(p, m), Next(q, m), e)
  {
    SameFlags(p, q, m);
    assert Next(q, m).at == AfterMove(q, m);
    forall s: Square | s !in e ensures AfterMove(p, m)[s] == AfterMove(q, m)[s] {
    }
    hide Next, AfterMove;
  }

  /** The state one make further, but for squares of e in the placement. */
  ghost predicate Above(deep: State, st: State, q: Pos, m: Move, e: Bitboard) {
    deep.stack == st.stack + [Record(st, m)] && Near(deep.pos, Next(q, m), Stranded(e, m))
  }

  /** Unmaking a move puts back every square but those of e, the one it landed on included. */
  lemma PlacementHeals(at: Placement, st: State, q: Pos, m: Move, e: Bitboard, s: Square)
    requires Loose(q, e) && Pseudo(q, m) && Near(st.pos, q, e) && s !in e
    requires forall t: Square :: t !in Stranded(e, m) ==> at[t] == AfterMove(q, m)[t]
    ensures PlacementBefore(at, q.side, Record(st, m))[s] == q.at[s]
  {
    assert st.pos.at[s] == q.at[s] && e <= HOMES && q.mod != SaveQueen && st.pos.mod == q.mod;
    var victim := Victim(m);
    assert m.ep ==> st.pos.at[victim] == q.at[victim] by {
      LooseShape(q, m, e);
      hide Pseudo, Loose, EpSound;
    }
    hide Pseudo, Loose, Near;
    LooseShape(q, m, e);
    if m.castle {
      CastlingHeals(at, st, q, m, e, s);
    } else {
      StepHeals(at, st, q, m, e, s);
    }
  }

  lemma CastlingHeals(at: Placement, st: State, q: Pos, m: Move, e: Bitboard, s: Square)
    requires m.castle && !m.ep && !IsCapture(m) && s !in e && st.pos.at[s] == q.at[s] && q.mod != SaveQueen
    requires st.pos.mod == q.mod && m.piece == King && m.from != m.to && m.promo.None? && m.from in HOMES
    requires CastlingRook(m.to).Some? && CastlingRook(m.to).value.2 == q.side
    requires q.at[m.to] == Empty && q.at[CastlingRook(m.to).value.1] == Empty
    requires q.at[CastlingRook(m.to).value.0] == Man(q.side, Rook) && (q.at[m.from] == Man(q.side, King) || m.from in e)
    requires forall t: Square :: t !in Stranded(e, m) ==> at[t] == AfterMove(q, m)[t]
    ensures PlacementBefore(at, q.side, Record(st, m))[s] == q.at[s]
  {
  }

  lemma StepHeals(at: Placement, st: State, q: Pos, m: Move, e: Bitboard, s: Square)
    requires !m.castle && Fits(q, m) && s !in e && st.pos.at[s] == q.at[s] && q.mod != SaveQueen && st.pos.mod == q.mod
    requires m.ep ==> st.pos.at[Victim(m)] == q.at[Victim(m)]
    requires forall t: Square :: t !in Stranded(e, m) ==> at[t] == AfterMove(q, m)[t]
    ensures PlacementBefore(at, q.side, Record(st, m))[s] == q.at[s]
  {
  }

  lemma UnmakeHeals(deep: State, st: State, q: Pos, m: Move, e: Bitboard)
    requires Loose(q, e) && Pseudo(q, m) && Near(st.pos, q, e) && Above(deep, st, q, m, e)
    ensures var back := Unmake(deep); back.stack == st.stack && back.hash == st.hash && Near(back.pos, q, e)
  {
    var u := Record(st, m);
    assert deep.stack[|deep.stack| - 1] == u && deep.stack[..|deep.stack| - 1] == st.stack;
    assert Next(q, m).at == AfterMove(q, m) && MoverOf(deep.pos, u) == q.side;
    var at := PlacementBefore(deep.pos.at, q.side, u);
    assert Unmake(deep).pos == q.(at := at) by { hide PlacementBefore, Pseudo, Loose, AfterMove; }
    forall s: Square | s !in e ensures at[s] == q.at[s] {
      hide PlacementBefore, Pseudo, Loose, AfterMove, Next, Record;
      PlacementHeals(deep.pos.at, st, q, m, e, s);
    }
  }

  // ---- Walks -----------------------------------------------------------------------------------

  lemma NearWider(p: Pos, q: Pos, e: Bitboard, m: Move)
    requires Near(p, q, e)
    ensures Near(p, q, Stranded(e, m))
  {
  }

  /** The walk leaves stack, hash and position as they were, squares of e aside. */
  ghost predicate Healed(r: State, st: State, q: Pos, e: Bitboard) {
    r.stack == st.stack && r.hash == st.hash && Near(r.pos, q, e)
  }

  lemma {:induction false} TourHeals(keys: Keys, st: State, q: Pos, t: Tour, e: Bitboard)
    requires Loose(q, e) && Near(st.pos, q, e) && Tours(q, t)
    ensures Healed(Walk(keys, st, t), st, q, e)
    decreases t
  {
    hide Loose, Near, Pseudo, Next, Unmake, Record;
    if t.Visit? {
      var m, wide := t.move, Stranded(e, t.move);
      NearStep(st.pos, q, m, e) by { LooseIsHeir(q, e); }
      NearWider(Next(st.pos, m), Next(q, m), e, m);
      LooseKept(q, m, e);
      var deep := Walk(keys, Make(keys, st, m), t.below);
      TourHeals(keys, Make(keys, st, m), Next(q, m), t.below, wide);
      UnmakeHeals(deep, st, q, m, e);
      TourHeals(keys, Unmake(deep), q, t.rest, e);
    }
  }

  lemma LooseIsHeir(p: Pos, e: Bitboard)
    requires Loose(p, e)
    ensures p.mod == Heir
  {
  }

  lemma NearNothing(p: Pos, q: Pos)
    requires Near(p, q, {})
    ensures p == q
  {
    assert p.at == q.at;
  }

  /** From a sound position of any mod, a properly nested walk over generated moves leaves the whole state as
      it was. In Heir that includes walks that take a king and then castle without it. */
  lemma SoundTourIsIdentity(keys: Keys, st: State, t: Tour)
    requires Sound(st.pos) && Tours(st.pos, t)
    ensures Walk(keys, st, t) == st
  {
    hide Tours, Walk, Vouches, Sound, Near;
    if st.pos.mod == Heir {
      SoundIsLoose(st.pos);
      NearItself(st.pos);
      TourHeals(keys, st, st.pos, t, {});
      NearNothing(Walk(keys, st, t).pos, st.pos);
    } else {
      PlayableVouches(st.pos, t);
      TourIsIdentity(keys, st, t);
    }
  }

  lemma NearItself(p: Pos)
    ensures Near(p, p, {})
  {
  }

  // ---- Walks over the moves of the position as it stands ------------------------------------------

  /** Each move is generated in the state the walk has actually reached, a conjured king included. This is
      how a search walks: it looks at the board again after every unmake. */
  ghost predicate Searches(keys: Keys, st: State, t: Tour)
    decreases t
  {
    t.Visit? ==>
      && Pseudo(st.pos, t.move)
      && Searches(keys, Make(keys, st, t.move), t.below)
      && var deep := Walk(keys, Make(keys, st, t.move), t.below);
         deep.stack != [] ==> Searches(keys, Unmake(deep), t.rest)
  }

  lemma LooseNear(p: Pos, q: Pos, e: Bitboard)
    requires Loose(q, e) && Near(p, q, e)
    ensures Loose(p, e)
  {
  }

  lemma NearChain(p: Pos, q: Pos, r: Pos, e: Bitboard)
    requires Near(p, q, e) && Near(q, r, e)
    ensures Near(p, r, e)
  {
  }

  lemma {:induction false} SearchHeals(keys: Keys, st: State, t: Tour, e: Bitboard)
    requires Loose(st.pos, e) && Searches(keys, st, t)
    ensures Healed(Walk(keys, st, t), st, st.pos, e)
    decreases t
  {
    hide Loose, Near, Pseudo, Next, Unmake, Record, Stranded;
    NearAlways(st.pos, e);
    if t.Visit? {
      var p, m, wide := st.pos, t.move, Stranded(e, t.move);
      LooseKept(p, m, e);
      var deep := Walk(keys, Make(keys, st, m), t.below);
      SearchHeals(keys, Make(keys, st, m), t.below, wide);
      UnmakeHeals(deep, st, p, m, e);
      var back := Unmake(deep);
      LooseNear(back.pos, p, e);
      SearchHeals(keys, back, t.rest, e);
      NearChain(Walk(keys, back, t.rest).pos, back.pos, p, e);
    }
  }

  lemma NearAlways(p: Pos, e: Bitboard)
    ensures Near(p, p, e)
  {
  }

  lemma {:induction false} PlayableSearchHeals(keys: Keys, st: State, t: Tour)
    requires Playable(st.pos) && Searches(keys, st, t)
    ensures Walk(keys, st, t) == st
    decreases t
  {
    hide Playable, Pseudo, Next, Unmake, Fits, Record, Sound;
    if t.Visit? {
      PlayableSound(st.pos);
      PseudoFits(st.pos, t.move);
      PlayableKept(st.pos, t.move);
      PlayableSearchHeals(keys, Make(keys, st, t.move), t.below);
      UnmakeMake(keys, st, t.move);
      PlayableSearchHeals(keys, st, t.rest);
    }
  }

  /** The same for a walk that generates its moves afresh after every unmake. */
  lemma SoundSearchIsIdentity(keys: Keys, st: State, t: Tour)
    requires Sound(st.pos) && Searches(keys, st, t)
    ensures Walk(keys, st, t) == st
  {
    hide Searches, Walk, Sound, Near;
    if st.pos.mod == Heir {
      SoundIsLoose(st.pos);
      SearchHeals(keys, st, t, {});
      NearNothing(Walk(keys, st, t).pos, st.pos);
    } else {
      PlayableSearchHeals(keys, st, t);
    }
  }

  lemma PlayableTourIsIdentity(keys: Keys, st: State, t: Tour)
    requires Playable(st.pos) && Tours(st.pos, t)
    ensures Walk(keys, st, t) == st
  {
    hide Tours, Walk;
    SoundTourIsIdentity(keys, st, t);
  }

  // ---- A surviving right ------------------------------------------------------------------------

  const TAKE: Move := Capture(60, 4, Queen, King)
  const PUSH: Move := Simple(8, 16, Pawn)
  const LEAVE: Move := Simple(4, 12, Queen)
  const CASTLE: Move := Castling(Wing(White, true))

  /** Black may take the king with the queen; White keeps rook, pawn and the right to castle. */
  function HeirExample(): Pos {
    Pos(seq(64, s => if s == 4 then Man(White, King) else if s == 7 then Man(White, Rook)
                     else if s == 8 then Man(White, Pawn) else if s == 60 then Man(Black, Queen)
                     else if s == 56 then Man(Black, King) else Empty),
        Black, Rights(true, false, false, false), NO_SQUARE, 0, 1, Heir,
        false, false, false, {}, {}, false, 0)
  }

  /** The invariant fails: a queen takes the king, its castling right survives, and castling with a king that
      is not there is generated and legal; unmaking that one move conjures a king up. */
  lemma HeirLosesSoundness(keys: Keys)
    ensures var p := HeirExample(); var q := Next(p, TAKE);
            && Sound(p) && Pseudo(p, TAKE) && Legal(p, TAKE) && !Sound(q)
            && Pseudo(q, CASTLE) && Legal(q, CASTLE) && !Vouched(q, CASTLE)
            && forall st: State :: st.pos == q ==> Unmake(Make(keys, st, CASTLE)) != st
  {
    var p := HeirExample();
    var q := Next(p, TAKE);
    HeirTakes(p);
    HeirCastles(q);
    forall st: State | st.pos == q ensures Unmake(Make(keys, st, CASTLE)) != st {
      hide Pseudo, Next, Unmake, Make;
      UnmakeExact(keys, st, CASTLE);
    }
  }

  /** The walk that takes the king, castles, and unmakes both is none the worse for it. */
  lemma HeirHeals(keys: Keys, st: State)
    requires st.pos == HeirExample()
    ensures var t := Visit(TAKE, Visit(CASTLE, Done, Done), Done);
            Tours(st.pos, t) && !Vouches(st.pos, t) && Walk(keys, st, t) == st
  {
    var t := Visit(TAKE, Visit(CASTLE, Done, Done), Done);
    HeirTakes(st.pos);
    HeirCastles(Next(st.pos, TAKE));
    assert Tours(st.pos, t) && !Vouches(st.pos, t) by { hide Pseudo, Next, Vouched; }
    hide Tours, Walk, Vouches;
    SoundTourIsIdentity(keys, st, t);
  }

  lemma HeirTakes(p: Pos)
    requires p == HeirExample()
    ensures Sound(p) && Pseudo(p, TAKE) && Legal(p, TAKE)
  {
    assert Reaches(p.at, Queen, 60, 4) by {
      forall k | 0 < k < Distance(60, 4) ensures CellAt(60, 4, k) !in All(p.at) {
        assert CellAt(60, 4, k) == 60 - 8 * k;
      }
      assert RookReach(60, 4, All(p.at));
    }
    assert PieceMove(p, TAKE);
    BlackIsSafe(Next(p, TAKE));
  }

  /** White has but a rook and a pawn that do not bear on the black king. */
  predicate Remains(q: Pos) {
    && q.mod == Heir && q.at[56] == Man(Black, King)
    && forall s: Square :: q.at[s].Man? && (q.at[s].color == White || q.at[s].kind == King) ==>
         s == 56 || (q.at[s] == Man(White, Pawn) && s in {8, 16}) || (q.at[s] == Man(White, Rook) && s == 7)
  }

  lemma BlackIsSafe(q: Pos)
    requires Remains(q)
    ensures LegalAfter(q, Black)
  {
    forall s: Square ensures !ControlledBy(q, White, s, 56) {
    }
    assert Of(q.at, Black, King) == {56};
  }

  lemma HeirCastles(q: Pos)
    requires q == Next(HeirExample(), TAKE)
    ensures !Sound(q) && Pseudo(q, CASTLE) && Legal(q, CASTLE) && !Vouched(q, CASTLE)
  {
    assert q.at == HeirExample().at[60 := Empty][4 := Man(Black, Queen)];
    CastlesUnseen(q, 8);
  }

  /** While White has a pawn and has crowned no heir, check does not matter to it. */
  lemma CastlesUnseen(q: Pos, pawn: Square)
    requires q.mod == Heir && q.side == White && q.castling == Rights(true, false, false, false) && !q.heirWhite
    requires q.at[5] == Empty && q.at[6] == Empty && pawn !in {4, 5, 6, 7} && q.at[pawn] == Man(White, Pawn)
    ensures Pseudo(q, CASTLE) && Legal(q, CASTLE)
  {
    assert pawn in Of(q.at, White, Pawn);
    assert CastlesOn(q, CASTLE, Wing(White, true));
    var r := Next(q, CASTLE);
    assert r.at[pawn] == Man(White, Pawn) && !r.heirWhite;
    assert pawn in Of(r.at, White, Pawn);
  }

  // ---- Why the board's views are claimed for sound positions only ------------------------------------

  /** The queen takes the king and walks away, White castles without a king, and the castling is unmade: the
      square on which the queen's move is to be put back is now taken by the conjured king. Placing a man on a
      taken square leaves the old man's bits behind, so for a while mailbox and bitboards disagree. */
  lemma HeirOverwrites(keys: Keys, st: State)
    requires st.pos == HeirExample()
    ensures var s1 := Make(keys, st, TAKE); var s2 := Make(keys, s1, PUSH); var s3 := Make(keys, s2, LEAVE);
            var s4 := Unmake(Make(keys, s3, CASTLE));
            && Pseudo(st.pos, TAKE) && Legal(st.pos, TAKE) && Pseudo(s1.pos, PUSH) && Legal(s1.pos, PUSH)
            && Pseudo(s2.pos, LEAVE) && Legal(s2.pos, LEAVE) && Pseudo(s3.pos, CASTLE) && Legal(s3.pos, CASTLE)
            && s4.stack == s3.stack && s4.stack[|s4.stack| - 1].move == LEAVE
            && s4.pos.at[LEAVE.from] == Man(White, King)
  {
    var s1 := Make(keys, st, TAKE);
    var s2 := Make(keys, s1, PUSH);
    var s3 := Make(keys, s2, LEAVE);
    HeirTakes(st.pos);
    HeirPushes(st.pos, s1.pos);
    HeirLeaves(s1.pos, s2.pos);
    HeirCastlesLate(s2.pos, s3.pos);
    hide Pseudo, Legal, Next, HeirExample;
    CastlingConjures(keys, s3);
  }

  lemma HeirPushes(p: Pos, q: Pos)
    requires p == HeirExample() && q == Next(p, TAKE)
    ensures Pseudo(q, PUSH) && Legal(q, PUSH)
  {
    assert q.at == p.at[60 := Empty][4 := Man(Black, Queen)];
    assert Push(q, PUSH);
    var r := Next(q, PUSH);
    assert 16 in Of(r.at, White, Pawn);
  }

  lemma HeirLeaves(q: Pos, r: Pos)
    requires q == Next(HeirExample(), TAKE) && r == Next(q, PUSH)
    ensures Pseudo(r, LEAVE) && Legal(r, LEAVE)
  {
    assert r.at == HeirExample().at[60 := Empty][4 := Man(Black, Queen)][8 := Empty][16 := Man(White, Pawn)];
    assert RookReach(4, 12, All(r.at));
    assert PieceMove(r, LEAVE);
    BlackIsSafe(Next(r, LEAVE));
  }

  lemma HeirCastlesLate(r: Pos, s: Pos)
    requires r == Next(Next(HeirExample(), TAKE), PUSH) && s == Next(r, LEAVE)
    ensures Pseudo(s, CASTLE) && Legal(s, CASTLE)
  {
    assert s.at ==
           HeirExample().at[60 := Empty][8 := Empty][16 := Man(White, Pawn)][4 := Empty][12 := Man(Black, Queen)];
    CastlesUnseen(s, 16);
  }

  lemma CastlingConjures(keys: Keys, st: State)
    requires st.pos.mod == Heir && st.pos.side == White
    ensures var back := Unmake(Make(keys, st, CASTLE)); back.stack == st.stack && back.pos.at[4] == Man(White, King)
  {
    hide Hash, RightsAfter;
    assert (st.stack + [Record(st, CASTLE)])[..|st.stack|] == st.stack;
  }
}
