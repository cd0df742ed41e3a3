/** Alpha-beta with principal-variation search, on the mutable board. Heuristic pruning, reductions
    and table cutoffs are off; what is left must return the value of the tree. */
module Search {
  import opened Types
  import opened Bitboards
  import opened Position
  import opened Attacks
  import opened Making
  import opened Boards
  import opened Rules
  import opened Reachable
  import opened Runs
  import opened Legality
  import opened AttackLookup
  import opened Generation
  import opened LegalGeneration
  import opened See
  import opened GameValue
  import opened Windows
  import opened MoveOrder
  import History

  // ---- Ordering --------------------------------------------------------------------

  lemma SameMembers(r: seq<Move>, ms: seq<Move>)
    requires multiset(r) == multiset(ms)
    ensures forall m :: m in r <==> m in ms
    ensures |r| == |ms|
  {
    assert forall m :: m in r <==> m in multiset(r);
    assert forall m :: m in ms <==> m in multiset(ms);
    assert |r| == |multiset(r)|;
  }

  lemma {:induction false} InKeepPromising(j: Judge, p: Pos, ms: seq<Move>, qply: int, m: Move)
    ensures m in KeepPromising(j, p, ms, qply) <==> m in ms && Promising(j, p, m, qply)
  {
    hide Promising;
    if ms != [] {
      InKeepPromising(j, p, ms[1..], qply, m);
      assert ms == [ms[0]] + ms[1..];
    }
  }

  lemma KeepStep(j: Judge, p: Pos, ms: seq<Move>, i: nat, qply: int)
    requires i < |ms|
    ensures KeepPromising(j, p, ms[i..], qply) ==
            (if Promising(j, p, ms[i], qply) then [ms[i]] else []) + KeepPromising(j, p, ms[i + 1..], qply)
  {
    hide Promising;
    assert ms[i..][1..] == ms[i + 1..];
  }

  lemma KeepNone(j: Judge, p: Pos, qply: int)
    ensures KeepPromising(j, p, [], qply) == []
  {
  }

  // ---- Facts about the value of a quiet search -------------------------------------------

  lemma QMoveFits(j: Judge, p: Pos, qply: int, m: Move)
    requires Sound(p) && m in QMoves(j, p, qply)
    ensures Pseudo(p, m) && Fits(p, m)
  {
    hide Sound, Pseudo, Fits, LegalMoves, LegalCaptures, InCheck, KeepPromising;
    InKeepPromising(j, p, LegalCaptures(p), qply, m);
    GeneratedFits(p, m);
  }

  lemma QStanding(j: Judge, p: Pos, ply: nat)
    requires Judged(j) && ply <= MAX_PLY + MAX_QPLY
    ensures !InCheck(p, p.side) ==> QStand(j, p, ply) == j.evaluate(p)
    ensures -MATE < j.evaluate(p) < MATE
  {
    hide InCheck, LegalMoves;
  }

  lemma QNothing(keys: Keys, j: Judge, st: State, ply: nat, qply: nat, ms: seq<Move>)
    requires Judged(j) && qply < MAX_QPLY && ply <= MAX_PLY + qply && QSettled(j, st, ply, qply).None?
    requires ms == [] && forall m :: m in ms <==> m in QMoves(j, st.pos, qply)
    ensures QValue(keys, j, st, ply, qply) == QStand(j, st.pos, ply)
  {
    hide QMoves, QSettled, QStand, InCheck;
    SomeMember(QMoves(j, st.pos, qply));
  }

  lemma SomeMember(ms: seq<Move>)
    ensures ms != [] ==> exists m :: m in ms
  {
    if ms != [] { assert ms[0] in ms; }
  }

  lemma QAtLeast(keys: Keys, j: Judge, st: State, ply: nat, qply: nat)
    requires Judged(j) && qply < MAX_QPLY && ply <= MAX_PLY + qply && QSettled(j, st, ply, qply).None?
    requires !InCheck(st.pos, st.pos.side)
    ensures QValue(keys, j, st, ply, qply) >= QStand(j, st.pos, ply)
  {
    hide QMoves, QSettled, QStand, InCheck;
  }

  /** The value is the best score of the moves, but no less than standing pat out of check. */
  lemma QMeaning(keys: Keys, j: Judge, st: State, ply: nat, qply: nat, ms: seq<Move>)
    requires Judged(j) && qply < MAX_QPLY && ply <= MAX_PLY + qply && QSettled(j, st, ply, qply).None?
    requires ms != [] && forall m :: m in ms <==> m in QMoves(j, st.pos, qply)
    ensures var v := QValue(keys, j, st, ply, qply);
            && (forall m :: m in ms ==> QScore(keys, j, st, m, ply, qply) <= v)
            && (!InCheck(st.pos, st.pos.side) ==> QStand(j, st.pos, ply) <= v)
            && ((!InCheck(st.pos, st.pos.side) && v == QStand(j, st.pos, ply)) ||
                exists m :: m in ms && v == QScore(keys, j, st, m, ply, qply))
  {
    hide QMoves, QSettled, QStand, InCheck, QScore;
    var qs := QMoves(j, st.pos, qply);
    assert ms[0] in qs;
    QBestIsMax(keys, j, st, qs, ply, qply);
  }

  /** Once moves are searched, the value is the best score over them, in whatever order. */
  lemma ValueIsBest(keys: Keys, j: Judge, st: State, depth: int, ply: nat, ms: seq<Move>)
    requires Judged(j) && ply < MAX_PLY && depth > 0
    requires Settled(j, st, ply).None? && Verdict(st.pos, ply).None?
    requires ms != [] && forall m :: m in ms <==> m in LegalMoves(st.pos)
    ensures var v := Value(keys, j, st, depth, ply);
            && (forall m :: m in ms ==> Score(keys, j, st, m, depth, ply) <= v)
            && exists m :: m in ms && v == Score(keys, j, st, m, depth, ply)
  {
    hide Settled, Verdict, LegalMoves, Score, Judged, Best;
    var all := LegalMoves(st.pos);
    assert ms[0] in all;
    BestIsMax(keys, j, st, all, depth, ply);
  }

  /** Room on the undo stack for the deepest line from this ply. */
  predicate Room(boardPly: int, ply: int) { boardPly + MAX_PLY + MAX_QPLY - ply < MAX_HISTORY }

  class Searcher {
    const judge: Judge
    const table: History.Table

    constructor (judge: Judge)
      ensures this.judge == judge && table.Valid() && fresh(table) && fresh(table.entries)
    {
      this.judge := judge;
      table := new History.Table();
    }

    ghost predicate Apart(b: Board) {
      && table.entries as object != b as object && table.entries as object != b.mailbox as object
      && table.entries as object != b.pieces as object && table.entries as object != b.occupied as object
      && table.entries as object != b.history as object
    }

    ghost predicate Ready(b: Board, ply: int)
      reads b, b.mailbox, b.pieces, b.occupied
    {
      Judged(judge) && b.Valid() && Playable(b.Position()) && Room(b.ply, ply)
    }

    // ---- Ordering ----------------------------------------------------------------------

    /** Moves ordered by history plus whatever the table move, killers, countermoves and variant
        heuristics add. */
    method OrderMoves(b: Board, ms: seq<Move>) returns (r: seq<Move>)
      requires table.Valid()
      ensures multiset(r) == multiset(ms)
    {
      var scores: seq<int> := [];
      for i := 0 to |ms|
        invariant |scores| == i
      {
        var extra: int := *;
        scores := scores + [extra + table.entries[Ix(b.side), ms[i].from, ms[i].to]];
      }
      r := OrderBy(ms, scores);
    }

    // ---- Terminal positions ------------------------------------------------------------

    method IsRepetition(b: Board) returns (r: bool)
      requires b.Valid()
      ensures r <==> Repeated(b.Value())
    {
      ghost var st := b.Value();
      if b.ply < 4 { return false; }
      var i := b.ply - 2;
      while i >= 0
        invariant -2 <= i <= b.ply - 2 && (b.ply - i) % 2 == 0
        invariant forall k :: i < k <= b.ply - 2 && (b.ply - k) % 2 == 0 ==> st.stack[k].hash != st.hash
      {
        if b.history[i].hash == b.hash {
          assert st.stack[i].hash == st.hash;
          return true;
        }
        i := i - 2;
      }
      return false;
    }

    method QueenIsHome(b: Board, c: Color) returns (home: bool)
      requires b.Coherent()
      ensures home <==> QueenHome(b.At(), c)
    {
      var queens := b.pieces[Ix(c), KindCode(Queen)];
      if queens == {} { return false; }
      var q := Lsb(queens);
      home := OwnHalf(q, c) && q == Prison(Opposite(c));
    }

    method FindQueenVerdict(b: Board, ply: int) returns (v: Option<int>)
      requires b.Valid()
      ensures v == QueenVerdict(b.Value(), ply)
    {
      hide QueenHome;
      if b.mod != SaveQueen { return None; }
      var us := b.side;
      var home := QueenIsHome(b, us);
      if home { return Some(MATE - ply); }
      home := QueenIsHome(b, Opposite(us));
      if home { return Some(-(MATE - ply)); }
      if b.ply > 0 {
        var u := b.history[b.ply - 1];
        assert u == b.Value().stack[b.ply - 1];
        if u.captured.Man? && u.captured.kind == Queen && u.capturedSq != NO_SQUARE &&
            OwnHalf(u.capturedSq, u.captured.color) {
          return Some(if u.captured.color == us then -(MATE - ply) else MATE - ply);
        }
      }
      return None;
    }

    method FindVerdict(b: Board, ply: int) returns (v: Option<int>)
      requires b.Coherent()
      ensures v == Verdict(b.Position(), ply)
    {
      var us, them := b.side, Opposite(b.side);
      if b.mod == Heir {
        if b.pieces[Ix(us), KindCode(King)] == {} {
          if (if us == White then b.heirWhite else b.heirBlack) { return Some(-(MATE - ply)); }
          if b.pieces[Ix(us), KindCode(Pawn)] == {} { return Some(-(MATE - ply)); }
        }
      }
      if b.mod == Succession {
        var ours := if us == White then b.heirWhite else b.heirBlack;
        var theirs := if us == White then b.heirBlack else b.heirWhite;
        if theirs { return Some(-(MATE - ply)); }
        if |b.pieces[Ix(us), KindCode(Queen)]| < 2 && !ours { return Some(-(MATE - ply)); }
        if b.pieces[Ix(us), KindCode(Pawn)] == {} && !ours { return Some(-(MATE - ply)); }
        if |b.pieces[Ix(them), KindCode(Queen)]| < 2 && !theirs { return Some(MATE - ply); }
        if b.pieces[Ix(them), KindCode(Pawn)] == {} && !theirs { return Some(MATE - ply); }
      }
      return None;
    }

    // ---- Quiescence ----------------------------------------------------------------------

    /** Captures ordered by exchange value. */
    method OrderBySee(b: Board, ms: seq<Move>) returns (r: seq<Move>)
      requires b.Valid() && forall m :: m in ms ==> Fits(b.Position(), m)
      ensures multiset(r) == multiset(ms)
    {
      hide Fits, SeeValue, Board.Coherent;
      var scores: seq<int> := [];
      for i := 0 to |ms|
        invariant |scores| == i
      {
        var see := ComputeSee(b, ms[i]);
        scores := scores + [see];
      }
      r := OrderBy(ms, scores);
    }

    method IsPromising(b: Board, m: Move, qply: int) returns (good: bool)
      requires b.Valid() && Fits(b.Position(), m)
      ensures good <==> Promising(judge, b.Position(), m, qply)
    {
      hide SeeValue, Fits, Board.Coherent;
      var tactical := b.mod == FriendlyFire && judge.selfCapture(b.Position(), m) >= 140;
      var see := ComputeSee(b, m);
      if b.mod == Mercenary {
        good := if qply < 4 then see >= -50 else see > 0;
      } else if tactical {
        good := see >= -220;
      } else {
        good := see >= 0;
      }
    }

    method FilterPromising(b: Board, ms: seq<Move>, qply: int) returns (r: seq<Move>)
      requires b.Valid() && forall m :: m in ms ==> Fits(b.Position(), m)
      ensures r == KeepPromising(judge, b.Position(), ms, qply)
    {
      hide Promising, KeepPromising, Fits, Board.Coherent;
      ghost var p := b.Position();
      r := [];
      var i := 0;
      assert ms[0..] == ms;
      while i < |ms|
        invariant 0 <= i <= |ms|
        invariant r + KeepPromising(judge, p, ms[i..], qply) == KeepPromising(judge, p, ms, qply)
      {
        var good := IsPromising(b, ms[i], qply);
        KeepStep(judge, p, ms, i, qply);
        if good { r := r + [ms[i]]; }
        i := i + 1;
      }
      KeepNone(judge, p, qply);
      assert ms[i..] == [] && r + [] == r;
    }

    /** The moves a quiet search looks at, in the order in which it does. */
    method FindQMoves(b: Board, qply: int, inCheck: bool) returns (ms: seq<Move>)
      requires b.Valid() && b.ply < MAX_HISTORY && Sound(b.Position()) && (inCheck <==> InCheck(b.Position(), b.side))
      requires table.Valid()
      ensures forall m :: m in ms <==> m in QMoves(judge, b.Position(), qply)
    {
      hide InCheck, Sound, LegalMoves, LegalCaptures, Board.Coherent, Fits, Promising, KeepPromising;
      ghost var p := b.Position();
      SoundVouchesAll(p);
      SoundIsHomeAndFree(p);
      var ml := new MoveList();
      if inCheck && qply < 4 {
        GenerateMoves(b, ml);
      } else {
        GenerateCaptures(b, ml);
      }
      var all := ml.moves;
      forall m | m in all ensures Fits(p, m) { GeneratedFits(p, m); }
      if inCheck {
        ms := OrderMoves(b, all);
        SameMembers(ms, all);
      } else {
        ms := OrderBySee(b, all);
        SameMembers(ms, all);
        ghost var ordered := ms;
        ms := FilterPromising(b, ms, qply);
        forall m ensures m in ms <==> m in KeepPromising(judge, p, all, qply) {
          InKeepPromising(judge, p, ordered, qply, m);
          InKeepPromising(judge, p, all, qply, m);
        }
      }
    }

    /** Search one move of a quiet search. */
    method QChild(b: Board, m: Move, alpha: int, beta: int, ply: nat, qply: nat) returns (s: int)
      requires Ready(b, ply) && table.Valid() && Apart(b) && Window(alpha, beta)
      requires qply < MAX_QPLY && ply <= MAX_PLY + qply
      requires Pseudo(b.Position(), m) && Fits(b.Position(), m)
      modifies b, b.mailbox, b.pieces, b.occupied, b.history
      ensures b.Valid() && b.Value() == old(b.Value())
      ensures -INFINITY < s < INFINITY
      ensures Bracket(s, alpha, beta, QScore(b.keys, judge, old(b.Value()), m, ply, qply))
      decreases MAX_QPLY - qply, 0
    {
      hide Board.Coherent, Fits, Pseudo, Next, Hash, Record, Playable, QValue, Judged, Bracket;
      ghost var st := b.Value();
      var mover := b.side;
      PlayableKept(st.pos, m);
      b.MakeMove(m);
      LastOnStack(b, st, m);
      MadeRoom(b, st, m);
      if b.side == mover {
        s := Quiescence(b, alpha, beta, ply + 1, qply + 1);
      } else {
        s := Quiescence(b, -beta, -alpha, ply + 1, qply + 1);
        Negated(s, alpha, beta, QValue(b.keys, judge, Make(b.keys, st, m), ply + 1, qply + 1));
        s := -s;
      }
      LastOnStack(b, st, m);
      b.UnmakeMove(st);
    }

    lemma MadeRoom(b: Board, before: State, m: Move)
      requires b.Valid() && b.Value() == Make(b.keys, before, m)
      ensures b.ply == |before.stack| + 1 && b.Position() == Next(before.pos, m)
    {
      hide Board.Coherent, Next, Hash, Record;
      assert |b.Value().stack| == b.ply;
    }

    /** The best of a floor and a list of moves, cut off at beta. */
    method QLoop(b: Board, ms: seq<Move>, floor: int, alpha: int, beta: int, ply: nat, qply: nat) returns (best: int)
      requires Ready(b, ply) && table.Valid() && Apart(b) && Window(alpha, beta)
      requires qply < MAX_QPLY && ply <= MAX_PLY + qply
      requires forall m :: m in ms ==> Pseudo(b.Position(), m) && Fits(b.Position(), m)
      requires -INFINITY <= floor < beta && (floor == -INFINITY ==> ms != [])
      modifies b, b.mailbox, b.pieces, b.occupied, b.history
      ensures b.Valid() && b.Value() == old(b.Value())
      ensures -INFINITY < best < INFINITY && floor <= best
      ensures best < beta ==> forall m :: m in ms ==> QScore(b.keys, judge, old(b.Value()), m, ply, qply) <= best
      ensures best > alpha && best != floor ==>
                exists m :: m in ms && (if best < beta then QScore(b.keys, judge, old(b.Value()), m, ply, qply) == best
                                        else QScore(b.keys, judge, old(b.Value()), m, ply, qply) >= best)
      decreases MAX_QPLY - qply, 1
    {
      hide Board.Coherent, Fits, Pseudo, Playable, Judged, QScore;
      ghost var st, keys := b.Value(), b.keys;
      best := floor;
      var al := if floor > alpha then floor else alpha;
      var i := 0;
      while i < |ms|
        invariant 0 <= i <= |ms|
        invariant b.Valid() && b.Value() == st
        invariant floor <= best < beta && al == (if best > alpha then best else alpha)
        invariant i > 0 ==> -INFINITY < best
        invariant forall k :: 0 <= k < i ==> QScore(keys, judge, st, ms[k], ply, qply) <= best
        invariant best > alpha ==>
                  best == floor || exists k :: 0 <= k < i && QScore(keys, judge, st, ms[k], ply, qply) == best
      {
        StillReady(b, ply, st);
        var s := QChild(b, ms[i], al, beta, ply, qply);
        if s > best { best := s; }
        if best > al { al := best; }
        if al >= beta {
          assert QScore(keys, judge, st, ms[i], ply, qply) >= best;
          return;
        }
        i := i + 1;
      }
    }

    /** The board is what it was, so the search may go on. */
    lemma StillReady(b: Board, ply: int, st: State)
      requires b.Valid() && b.Value() == st && Judged(judge) && Playable(st.pos) && Room(|st.stack|, ply)
      ensures Ready(b, ply) && b.Position() == st.pos
    {
      hide Board.Coherent, Playable, Judged;
      assert |b.Value().stack| == b.ply;
    }

    /** The search proper, once no terminal rule has settled the position. */
    method QSearch(b: Board, alpha: int, beta: int, ply: nat, qply: nat) returns (r: int)
      requires Ready(b, ply) && table.Valid() && Apart(b) && Window(alpha, beta)
      requires qply < MAX_QPLY && ply <= MAX_PLY + qply && QSettled(judge, b.Value(), ply, qply).None?
      modifies b, b.mailbox, b.pieces, b.occupied, b.history
      ensures b.Valid() && b.Value() == old(b.Value())
      ensures -INFINITY < r < INFINITY
      ensures Bracket(r, alpha, beta, QValue(b.keys, judge, old(b.Value()), ply, qply))
      decreases MAX_QPLY - qply, 2
    {
      hide Board.Coherent, Fits, Pseudo, Playable, InCheck, QSettled, QMoves, LegalMoves, QScore;
      ghost var st, keys := b.Value(), b.keys;
      PlayableSound(st.pos);
      var inCheck := BoardInCheck(b, b.side);
      var ms := FindQMoves(b, qply, inCheck);
      forall m | m in ms ensures Pseudo(st.pos, m) && Fits(st.pos, m) { QMoveFits(judge, st.pos, qply, m); }
      if inCheck {
        if ms == [] {
          var some := HasLegalMoves(b);
          r := if some then judge.evaluate(b.Position()) else -(MATE - ply);
          QNothing(keys, judge, st, ply, qply, ms);
          return;
        }
        r := QLoop(b, ms, -INFINITY, alpha, beta, ply, qply);
        QMeaning(keys, judge, st, ply, qply, ms);
      } else {
        var stand := judge.evaluate(b.Position());
        QStanding(judge, st.pos, ply);
        if stand >= beta {
          QAtLeast(keys, judge, st, ply, qply);
          return stand;
        }
        r := QLoop(b, ms, stand, alpha, beta, ply, qply);
        if ms == [] { QNothing(keys, judge, st, ply, qply, ms); } else { QMeaning(keys, judge, st, ply, qply, ms); }
      }
    }

    method Quiescence(b: Board, alpha: int, beta: int, ply: nat, qply: nat) returns (r: int)
      requires Ready(b, ply) && table.Valid() && Apart(b) && Window(alpha, beta)
      requires qply <= MAX_QPLY && ply <= MAX_PLY + qply
      modifies b, b.mailbox, b.pieces, b.occupied, b.history
      ensures b.Valid() && b.Value() == old(b.Value())
      ensures -INFINITY < r < INFINITY
      ensures Bracket(r, alpha, beta, QValue(b.keys, judge, old(b.Value()), ply, qply))
      decreases MAX_QPLY - qply, 3
    {
      ghost var st, keys := b.Value(), b.keys;
      var queen := FindQueenVerdict(b, ply);
      if queen.Some? { return queen.value; }
      if ply >= MAX_PLY + MAX_QPLY || qply >= MAX_QPLY { return judge.evaluate(b.Position()); }
      var verdict := FindVerdict(b, ply);
      if verdict.Some? { return verdict.value; }
      r := QSearch(b, alpha, beta, ply, qply);
    }

    // ---- Alpha-beta ------------------------------------------------------------------------

    /** Search below a move that has been made; `same` when the mover moves again. */
    method Below(b: Board, newDepth: int, alpha: int, beta: int, ply: nat, same: bool, isPv: bool,
                 ghost st: State, ghost m: Move, ghost depth: int) returns (s: int)
      requires Ready(b, ply + 1) && table.Valid() && Apart(b) && Window(alpha, beta)
      requires ply < MAX_PLY && depth <= 63 + ply
      requires b.Value() == Make(b.keys, st, m) && newDepth == depth - 1 + Extension(judge, st, m, depth)
      requires same <==> b.side == st.pos.side
      modifies b, b.mailbox, b.pieces, b.occupied, b.history, table.entries
      ensures b.Valid() && b.Value() == old(b.Value()) && table.Valid()
      ensures -INFINITY < s < INFINITY
      ensures Bracket(s, alpha, beta, Score(b.keys, judge, st, m, depth, ply))
      decreases MAX_PLY - ply, 0, 0
    {
      hide Board.Coherent, Next, Hash, Record, Playable, Value, Judged, Bracket, Extension;
      if same {
        s := AlphaBeta(b, newDepth, alpha, beta, ply + 1, isPv);
      } else {
        s := AlphaBeta(b, newDepth, -beta, -alpha, ply + 1, isPv);
        Negated(s, alpha, beta, Value(b.keys, judge, Make(b.keys, st, m), newDepth, ply + 1));
        s := -s;
      }
    }

    /** What the extension rules look at, part of it before and part after the move is made. */
    method FindExtension(b: Board, m: Move, depth: int, inCheck: bool, recapture: bool, see: int, p: Pos,
                         ghost st: State) returns (ext: int)
      requires b.Valid() && b.Value() == Make(b.keys, st, m) && p == st.pos
      requires inCheck <==> InCheck(p, p.side)
      requires recapture <==> Recaptures(st, m)
      requires see == if IsCapture(m) then SeeValue(p, m) else 0
      ensures ext == Extension(judge, st, m, depth)
    {
      hide Board.Coherent, Next, Hash, Record, InCheck, Recaptures, SeeValue, ExtensionBy;
      var mover := p.side;
      var gives := BoardInCheck(b, if b.side == mover then Opposite(mover) else b.side);
      var few := MenLeft(b);
      ext := ExtensionBy(judge, p, m, depth, Signs(inCheck, gives, recapture, few, see));
    }

    method MenLeft(b: Board) returns (few: bool)
      requires b.Coherent()
      ensures few <==> |All(b.At())| <= 16
    {
      few := |b.all| <= 16;
    }

    method IsRecapture(b: Board, m: Move) returns (r: bool)
      requires b.Valid()
      ensures r <==> Recaptures(b.Value(), m)
    {
      if !IsCapture(m) || b.ply == 0 { return false; }
      var prev := b.history[b.ply - 1].move;
      assert prev == b.Value().stack[b.ply - 1].move;
      r := IsCapture(prev) && prev.to == m.to;
    }

    /** Search one move: the first with the full window, later ones with a null window that is opened
        again when the answer falls inside. */
    method SearchMove(b: Board, m: Move, depth: int, alpha: int, beta: int, ply: nat, first: bool, isPv: bool,
                      inCheck: bool) returns (s: int)
      requires Ready(b, ply) && table.Valid() && Apart(b) && Window(alpha, beta)
      requires ply < MAX_PLY && depth <= 63 + ply
      requires inCheck <==> InCheck(b.Position(), b.side)
      requires Pseudo(b.Position(), m) && Fits(b.Position(), m)
      modifies b, b.mailbox, b.pieces, b.occupied, b.history, table.entries
      ensures b.Valid() && b.Value() == old(b.Value()) && table.Valid()
      ensures -INFINITY < s < INFINITY
      ensures Bracket(s, alpha, beta, Score(b.keys, judge, old(b.Value()), m, depth, ply))
      decreases MAX_PLY - ply, 0, 1
    {
      hide Board.Coherent, Fits, Pseudo, Next, Hash, Record, Playable, Value, Judged, Extension, Score, InCheck,
          Recaptures, SeeValue;
      ghost var st := b.Value();
      var p := b.Position();
      var see := 0;
      if IsCapture(m) { see := ComputeSee(b, m); }
      var recapture := IsRecapture(b, m);
      PlayableKept(st.pos, m);
      b.MakeMove(m);
      MadeRoom(b, st, m);
      var same := b.side == p.side;
      var ext := FindExtension(b, m, depth, inCheck, recapture, see, p, st);
      var newDepth := depth - 1 + ext;
      if first || (b.mod == KingsBattle && isPv && depth <= 4) {
        s := Below(b, newDepth, alpha, beta, ply, same, isPv, st, m, depth);
      } else {
        s := Below(b, newDepth, alpha, alpha + 1, ply, same, false, st, m, depth);
        if alpha < s < beta {
          StillReady(b, ply + 1, Make(b.keys, st, m));
          s := Below(b, newDepth, alpha, beta, ply, same, true, st, m, depth);
        }
      }
      LastOnStack(b, st, m);
      b.UnmakeMove(st);
    }

    static predicate IsQuiet(m: Move) { !IsCapture(m) && m.promo.None? }

    /** A quiet move that caused a cutoff gains in history; the quiet moves before it lose. */
    method Reward(c: Color, m: Move, quiets: seq<Move>, depth: int)
      requires table.Valid() && 0 <= depth <= 126 && quiets != []
      modifies table.entries
      ensures table.Valid()
      ensures forall d: Color, from: Square, to: Square :: table.entries[Ix(d), from, to] ==
                var was := old(table.entries[Ix(d), from, to]);
                if d != c then was
                else History.Credited(
                  if m.from == from && m.to == to then History.Gravity(was, depth * depth) else was,
                  from, to, quiets[..|quiets| - 1], -(depth * depth))
    {
      hide History.Gravity, History.Credited;
      table.Record(c, m, depth);
      table.Penalize(c, quiets[..|quiets| - 1], depth);
    }

    /** The loop over the moves of a node. */
    method SearchMoves(b: Board, ms: seq<Move>, depth: int, alpha: int, beta: int, ply: nat, isPv: bool, inCheck: bool)
      returns (best: int)
      requires Ready(b, ply) && table.Valid() && Apart(b) && Window(alpha, beta)
      requires ply < MAX_PLY && 0 < depth <= 63 + ply && ms != []
      requires inCheck <==> InCheck(b.Position(), b.side)
      requires forall m :: m in ms ==> Pseudo(b.Position(), m) && Fits(b.Position(), m)
      modifies b, b.mailbox, b.pieces, b.occupied, b.history, table.entries
      ensures b.Valid() && b.Value() == old(b.Value()) && table.Valid()
      ensures -INFINITY < best < INFINITY
      ensures best < beta ==> forall m :: m in ms ==> Score(b.keys, judge, old(b.Value()), m, depth, ply) <= best
      ensures best > alpha ==>
                exists m :: m in ms && (if best < beta then Score(b.keys, judge, old(b.Value()), m, depth, ply) == best
                                        else Score(b.keys, judge, old(b.Value()), m, depth, ply) >= best)
      decreases MAX_PLY - ply, 0, 2
    {
      hide Board.Coherent, Fits, Pseudo, Playable, Judged, Score, InCheck;
      ghost var st, keys := b.Value(), b.keys;
      best := -INFINITY;
      var al, i := alpha, 0;
      var quiets: seq<Move> := [];
      while i < |ms|
        invariant 0 <= i <= |ms|
        invariant b.Valid() && b.Value() == st && table.Valid()
        invariant best < beta && al == (if best > alpha then best else alpha)
        invariant if i == 0 then best == -INFINITY else -INFINITY < best
        invariant forall k :: 0 <= k < i ==> Score(keys, judge, st, ms[k], depth, ply) <= best
        invariant best > alpha ==> exists k :: 0 <= k < i && Score(keys, judge, st, ms[k], depth, ply) == best
      {
        StillReady(b, ply, st);
        var m := ms[i];
        var s := SearchMove(b, m, depth, al, beta, ply, i == 0, isPv, inCheck);
        if IsQuiet(m) { quiets := quiets + [m]; }
        if s > best { best := s; }
        if s > al { al := s; }
        if al >= beta {
          assert Score(keys, judge, st, m, depth, ply) >= best;
          if IsQuiet(m) { Reward(b.side, m, quiets, depth); }
          return;
        }
        i := i + 1;
      }
    }

    /** Generate, order and search the moves of a node whose window is open. */
    method SearchOpen(b: Board, depth: int, alpha: int, beta: int, ply: nat, isPv: bool) returns (r: int)
      requires Ready(b, ply) && table.Valid() && Apart(b) && Window(alpha, beta)
      requires ply < MAX_PLY && 0 < depth <= 63 + ply
      requires Settled(judge, b.Value(), ply).None? && Verdict(b.Position(), ply).None?
      modifies b, b.mailbox, b.pieces, b.occupied, b.history, table.entries
      ensures b.Valid() && b.Value() == old(b.Value()) && table.Valid()
      ensures -INFINITY < r < INFINITY
      ensures Bracket(r, alpha, beta, Value(b.keys, judge, old(b.Value()), depth, ply))
      decreases MAX_PLY - ply, depth, 0
    {
      hide Board.Coherent, Fits, Pseudo, Playable, InCheck, Settled, Verdict, LegalMoves, Score, Best, Judged;
      ghost var st, keys := b.Value(), b.keys;
      PlayableSound(st.pos);
      var inCheck := BoardInCheck(b, b.side);
      var ml := new MoveList();
      GenerateMoves(b, ml);
      var moves := ml.moves;
      if moves == [] {
        r := StuckScore(b, ply, inCheck);
        return;
      }
      var known: bool := *; // the transposition table suggests a move
      if isPv && depth >= 4 && !known && !inCheck {
        var _ := AlphaBeta(b, depth - 2, alpha, beta, ply, true);
        StillReady(b, ply, st);
      }
      var ms := OrderMoves(b, moves);
      SameMembers(ms, moves);
      forall m | m in ms ensures Pseudo(st.pos, m) && Fits(st.pos, m) { GeneratedFits(st.pos, m); }
      r := SearchMoves(b, ms, depth, alpha, beta, ply, isPv, inCheck);
      ValueIsBest(keys, judge, st, depth, ply, ms);
    }

    /** A node with depth to search and no terminal verdict: clamp the window to the mate scores that
        are still possible, and search what is left of it. */
    method SearchNode(b: Board, depth: int, alpha: int, beta: int, ply: nat, isPv: bool) returns (r: int)
      requires Ready(b, ply) && table.Valid() && Apart(b) && Window(alpha, beta)
      requires ply < MAX_PLY && 0 < depth <= 63 + ply
      requires Settled(judge, b.Value(), ply).None? && Verdict(b.Position(), ply).None?
      modifies b, b.mailbox, b.pieces, b.occupied, b.history, table.entries
      ensures b.Valid() && b.Value() == old(b.Value()) && table.Valid()
      ensures -INFINITY < r < INFINITY
      ensures Bracket(r, alpha, beta, Value(b.keys, judge, old(b.Value()), depth, ply))
      decreases MAX_PLY - ply, depth, 1
    {
      hide Board.Coherent, Playable, Settled, Verdict, LegalMoves, Best, Judged;
      var lo, hi := -(MATE - ply), MATE - ply - 1;
      var a := if alpha < lo then lo else alpha;
      var be := if beta > hi then hi else beta;
      ghost var v := Value(b.keys, judge, b.Value(), depth, ply);
      if a >= be {
        ClampedShut(alpha, beta, lo, hi, v);
        return a;
      }
      r := SearchOpen(b, depth, a, be, ply, isPv);
      Clamped(r, alpha, beta, lo, hi, v);
    }

    method StuckScore(b: Board, ply: int, inCheck: bool) returns (r: int)
      requires b.Coherent() && (inCheck <==> InCheck(b.Position(), b.side))
      ensures r == Stuck(b.Position(), ply)
    {
      hide InCheck;
      if inCheck { return -(MATE - ply); }
      if b.mod == Heir && b.pieces[Ix(b.side), KindCode(King)] == {} { return -(MATE - ply); }
      return 0;
    }

    /** Fail-soft alpha-beta: whatever the window and however the moves are ordered, the answer brackets
        the minimax value, and the board is left as it was. */
    method AlphaBeta(b: Board, depth: int, alpha: int, beta: int, ply: nat, isPv: bool) returns (r: int)
      requires Ready(b, ply) && table.Valid() && Apart(b) && Window(alpha, beta)
      requires ply <= MAX_PLY && depth <= 63 + ply
      modifies b, b.mailbox, b.pieces, b.occupied, b.history, table.entries
      ensures b.Valid() && b.Value() == old(b.Value()) && table.Valid()
      ensures -INFINITY < r < INFINITY
      ensures Bracket(r, alpha, beta, Value(b.keys, judge, old(b.Value()), depth, ply))
      decreases MAX_PLY - ply, depth, 2
    {
      hide Board.Coherent, Playable, QValue, Repeated, QueenVerdict, LegalMoves, Best;
      var repeated := IsRepetition(b);
      if repeated { return 0; }
      var queen := FindQueenVerdict(b, ply);
      if queen.Some? {
        assert Settled(judge, b.Value(), ply) == queen;
        return queen.value;
      }
      if ply >= MAX_PLY { return judge.evaluate(b.Position()); }
      if depth <= 0 {
        r := Quiescence(b, alpha, beta, ply, 0);
        return;
      }
      var verdict := FindVerdict(b, ply);
      if verdict.Some? { return verdict.value; }
      r := SearchNode(b, depth, alpha, beta, ply, isPv);
    }
  }
}
