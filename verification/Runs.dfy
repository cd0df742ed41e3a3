/** Whole games: sequences of generated moves, and search walks that make and unmake them. */
module Runs {
  import opened Types
  import opened Position
  import opened Attacks
  import opened Making
  import opened Rules
  import opened Reachable

  /** Every move of the sequence is generated in the position it is played from. */
  ghost predicate Run(p: Pos, ms: seq<Move>)
    decreases |ms|
  {
    ms != [] ==> Pseudo(p, ms[0]) && Run(Next(p, ms[0]), ms[1..])
  }

  function After(p: Pos, ms: seq<Move>): Pos
    decreases |ms|
  {
    if ms == [] then p else After(Next(p, ms[0]), ms[1..])
  }

  lemma {:induction false} RunKeepsMod(p: Pos, ms: seq<Move>)
    ensures After(p, ms).mod == p.mod && After(p, ms).truceActive == p.truceActive
    decreases |ms|
  {
    if ms != [] {
      RunKeepsMod(Next(p, ms[0]), ms[1..]);
    }
  }

  predicate NoRights(p: Pos) { p.castling == Rights(false, false, false, false) }

  /** A position from which every game stays sound. In Heir a king can be taken while its castling
      right survives, so there the rights must be gone. */
  predicate Playable(p: Pos) { Sound(p) && (p.mod == Heir ==> NoRights(p)) }

  lemma PlayableKept(p: Pos, m: Move)
    requires Pseudo(p, m) && Playable(p)
    ensures Playable(Next(p, m))
  {
    hide Pseudo, EpSound;
    if p.mod == Heir {
      hide AfterMove, EpAfter, FrozenAfter, MovedAfter, KingsKill, UnlockedAfter, IdleAfter;
      EpKept(p, m);
    } else {
      hide Next;
      SoundKept(p, m);
      NextMod(p, m);
    }
  }

  lemma NextMod(p: Pos, m: Move)
    ensures Next(p, m).mod == p.mod && Next(p, m).truceActive == p.truceActive
  {
  }

  /** No move of the run takes a king that still has a castling right. */
  ghost predicate StrandsNone(p: Pos, ms: seq<Move>)
    decreases |ms|
  {
    ms != [] ==> !StrandsRight(p, ms[0]) && StrandsNone(Next(p, ms[0]), ms[1..])
  }

  /** Every position of the run is sound. */
  ghost predicate SoundAlong(p: Pos, ms: seq<Move>)
    decreases |ms|
  {
    Sound(p) && (ms != [] ==> SoundAlong(Next(p, ms[0]), ms[1..]))
  }

  /** Over whole games in any mod: every position is sound if and only if no king is taken that still has
      a castling right. */
  lemma {:induction false} RunSoundExactly(p: Pos, ms: seq<Move>)
    requires Sound(p) && Run(p, ms)
    ensures SoundAlong(p, ms) <==> StrandsNone(p, ms)
    ensures StrandsNone(p, ms) ==> Sound(After(p, ms))
    decreases |ms|
  {
    hide Sound, Pseudo, Next, StrandsRight;
    if ms != [] {
      SoundKeptExactly(p, ms[0]);
      if !StrandsRight(p, ms[0]) {
        RunSoundExactly(Next(p, ms[0]), ms[1..]);
      }
    }
  }

  lemma PlayableStrandsNot(p: Pos, m: Move)
    requires Pseudo(p, m) && Playable(p)
    ensures !StrandsRight(p, m)
  {
    hide Pseudo;
    PlayableSound(p);
    SoundKeptExactly(p, m);
    PlayableKept(p, m);
    PlayableSound(Next(p, m));
  }

  lemma {:induction false} PlayableStrandsNone(p: Pos, ms: seq<Move>)
    requires Playable(p) && Run(p, ms)
    ensures StrandsNone(p, ms)
    decreases |ms|
  {
    hide Playable, Pseudo, Next, StrandsRight;
    if ms != [] {
      PlayableStrandsNot(p, ms[0]);
      PlayableKept(p, ms[0]);
      PlayableStrandsNone(Next(p, ms[0]), ms[1..]);
    }
  }

  /** Where the mod or the rights rule stranding out, soundness holds in every reachable position. */
  lemma RunStaysPlayable(p: Pos, ms: seq<Move>)
    requires Playable(p) && Run(p, ms)
    ensures Playable(After(p, ms)) && SoundAlong(p, ms)
  {
    hide Playable, Pseudo, Next, Run;
    PlayableSound(p);
    PlayableStrandsNone(p, ms);
    RunSoundExactly(p, ms);
    PlayableAfter(p, ms);
  }

  lemma {:induction false} PlayableAfter(p: Pos, ms: seq<Move>)
    requires Playable(p) && Run(p, ms)
    ensures Playable(After(p, ms))
    decreases |ms|
  {
    hide Playable, Pseudo, Next;
    if ms != [] {
      PlayableKept(p, ms[0]);
      PlayableAfter(Next(p, ms[0]), ms[1..]);
    }
  }

  // ---- Nested make and unmake ----------------------------------------------------

  /** A depth-first walk: make a move, walk below it, unmake it, walk on. */
  datatype Tour = Done | Visit(move: Move, below: Tour, rest: Tour)

  ghost predicate Tours(p: Pos, t: Tour)
    decreases t
  {
    t.Visit? ==> Pseudo(p, t.move) && Tours(Next(p, t.move), t.below) && Tours(p, t.rest)
  }

  /** The unmake of a step pops exactly what its make pushed; a walk that has lost the record stops. */
  ghost function Walk(keys: Keys, st: State, t: Tour): State
    decreases t
  {
    match t
    case Done => st
    case Visit(m, below, rest) =>
      var deep := Walk(keys, Make(keys, st, m), below);
      if deep.stack == [] then deep else Walk(keys, Unmake(deep), rest)
  }

  /** Every move of the walk is generated, and its castling men and en-passant square are in order. */
  ghost predicate Vouches(p: Pos, t: Tour)
    decreases t
  {
    t.Visit? ==> Pseudo(p, t.move) && Vouched(p, t.move) && Vouches(Next(p, t.move), t.below) && Vouches(p, t.rest)
  }

  /** Any properly nested making and unmaking of vouched moves leaves the whole state as it was, in any
      mod and from any position. */
  lemma {:induction false} TourIsIdentity(keys: Keys, st: State, t: Tour)
    requires Vouches(st.pos, t)
    ensures Walk(keys, st, t) == st
    decreases t
  {
    hide Pseudo, Vouched, Next, Unmake, Fits, Record;
    if t.Visit? {
      VouchedFits(st.pos, t.move);
      TourIsIdentity(keys, Make(keys, st, t.move), t.below);
      UnmakeMake(keys, st, t.move);
      TourIsIdentity(keys, st, t.rest);
    }
  }

  lemma {:induction false} PlayableVouches(p: Pos, t: Tour)
    requires Playable(p) && Tours(p, t)
    ensures Vouches(p, t)
    decreases t
  {
    hide Playable, Pseudo, Vouched, Next, Sound;
    if t.Visit? {
      PlayableSound(p);
      SoundIsHomeAndFree(p);
      SoundVouches(p, t.move);
      PlayableKept(p, t.move);
      PlayableVouches(Next(p, t.move), t.below);
      PlayableVouches(p, t.rest);
    }
  }

  lemma SoundIsHomeAndFree(p: Pos)
    requires Sound(p)
    ensures RightsHome(p) && EpFree(p)
  {
  }

  lemma PlayableSound(p: Pos)
    requires Playable(p)
    ensures Sound(p) && AllVouched(p)
  {
    SoundVouchesAll(p);
  }
}
