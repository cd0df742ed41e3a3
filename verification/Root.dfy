/** The root: iterative deepening with aspiration windows. */
module Root {
  import opened Types
  import opened Position
  import opened Attacks
  import opened Making
  import opened Boards
  import opened Rules
  import opened Runs
  import opened Legality
  import opened AttackLookup
  import opened Generation
  import opened LegalGeneration
  import opened GameValue
  import opened Windows
  import opened Search

  predicate IsMate(s: int) { s > MATE - 500 || s < -MATE + 500 }

  function RootExtension(p: Pos, m: Move): int {
    if InCheck(p, p.side) || GivesCheck(Next(p, m), p.side) then 1 else 0
  }

  /** The minimax score of a root move. */
  ghost function RootScore(keys: Keys, j: Judge, st: State, m: Move, depth: int): (v: int)
    requires Judged(j)
    ensures -MATE < v < MATE
  {
    hide Make, RootExtension, Value;
    var after := Make(keys, st, m);
    Signed(st.pos, after.pos, Value(keys, j, after, depth - 1 + RootExtension(st.pos, m), 1))
  }

  /** v is the score of the best legal move. */
  ghost predicate IsRootBest(keys: Keys, j: Judge, st: State, depth: int, v: int)
    requires Judged(j)
  {
    && (forall m :: m in LegalMoves(st.pos) ==> RootScore(keys, j, st, m, depth) <= v)
    && exists m :: m in LegalMoves(st.pos) && RootScore(keys, j, st, m, depth) == v
  }

  lemma RootBestUnique(keys: Keys, j: Judge, st: State, depth: int, v: int, w: int)
    requires Judged(j) && IsRootBest(keys, j, st, depth, v) && IsRootBest(keys, j, st, depth, w)
    ensures v == w && -MATE < v < MATE
  {
    hide RootScore, LegalMoves, Judged;
  }

  /** Among finitely many moves there is a best one. */
  lemma {:induction false} SomeBest(keys: Keys, j: Judge, st: State, ms: seq<Move>, depth: int) returns (v: int)
    requires Judged(j) && ms != []
    ensures forall m :: m in ms ==> RootScore(keys, j, st, m, depth) <= v
    ensures exists m :: m in ms && RootScore(keys, j, st, m, depth) == v
  {
    hide RootScore, Judged;
    assert ms == [ms[0]] + ms[1..];
    v := RootScore(keys, j, st, ms[0], depth);
    if |ms| > 1 {
      var rest := SomeBest(keys, j, st, ms[1..], depth);
      if rest > v { v := rest; }
    }
  }

  datatype Result = Result(best: Option<Move>, score: int, depth: int)

  class Thinker {
    const search: Searcher

    constructor (search: Searcher)
      ensures this.search == search
    {
      this.search := search;
    }

    /** Search below a root move with one window. */
    method RootBelow(b: Board, depth: int, ext: int, al: int, be: int, same: bool, ghost st: State, ghost m: Move)
      returns (s: int)
      requires search.Ready(b, 1) && search.table.Valid() && search.Apart(b) && Window(al, be)
      requires depth <= MAX_PLY && ext == RootExtension(st.pos, m)
      requires b.Value() == Make(b.keys, st, m) && (same <==> b.side == st.pos.side)
      modifies b, b.mailbox, b.pieces, b.occupied, b.history, search.table.entries
      ensures b.Valid() && b.Value() == old(b.Value()) && search.table.Valid()
      ensures -INFINITY < s < INFINITY
      ensures Bracket(s, al, be, RootScore(b.keys, search.judge, st, m, depth))
    {
      hide Board.Coherent, Next, Hash, Record, Playable, Value, Judged, Bracket, InCheck, GivesCheck;
      if same {
        s := search.AlphaBeta(b, depth - 1 + ext, al, be, 1, true);
      } else {
        s := search.AlphaBeta(b, depth - 1 + ext, -be, -al, 1, true);
        Negated(s, al, be, Value(b.keys, search.judge, Make(b.keys, st, m), depth - 1 + ext, 1));
        s := -s;
      }
    }

    /** A root move's score is exact whatever the window: outside it the move is searched again in full. */
    method ScoreRootMove(b: Board, m: Move, depth: int, al: int, be: int, inCheck: bool) returns (s: int)
      requires search.Ready(b, 0) && search.table.Valid() && search.Apart(b) && Window(al, be)
      requires depth <= MAX_PLY && (inCheck <==> InCheck(b.Position(), b.side))
      requires Pseudo(b.Position(), m) && Fits(b.Position(), m)
      modifies b, b.mailbox, b.pieces, b.occupied, b.history, search.table.entries
      ensures b.Valid() && b.Value() == old(b.Value()) && search.table.Valid()
      ensures s == RootScore(b.keys, search.judge, old(b.Value()), m, depth)
    {
      hide Board.Coherent, Fits, Pseudo, Next, Hash, Record, Playable, Value, Judged, InCheck, RootScore;
      ghost var st := b.Value();
      var mover := b.side;
      PlayableKept(st.pos, m);
      b.MakeMove(m);
      search.MadeRoom(b, st, m);
      var same := b.side == mover;
      var gives := BoardInCheck(b, if same then Opposite(mover) else b.side);
      var ext := if inCheck || gives then 1 else 0;
      s := RootBelow(b, depth, ext, al, be, same, st, m);
      if (s <= al || s >= be) && (al > -INFINITY || be < INFINITY) {
        search.StillReady(b, 1, Make(b.keys, st, m));
        s := RootBelow(b, depth, ext, -INFINITY, INFINITY, same, st, m);
      }
      LastOnStack(b, st, m);
      b.UnmakeMove(st);
    }

    /** One pass over the root moves. */
    method Pass(b: Board, ms: seq<Move>, depth: int, al: int, be: int) returns (best: int, move: Move)
      requires search.Ready(b, 0) && search.table.Valid() && search.Apart(b) && Window(al, be)
      requires depth <= MAX_PLY && ms != [] && forall m :: m in ms <==> m in LegalMoves(b.Position())
      modifies b, b.mailbox, b.pieces, b.occupied, b.history, search.table.entries
      ensures b.Valid() && b.Value() == old(b.Value()) && search.table.Valid()
      ensures IsRootBest(b.keys, search.judge, old(b.Value()), depth, best)
      ensures move in ms && RootScore(b.keys, search.judge, old(b.Value()), move, depth) == best
    {
      hide Board.Coherent, Fits, Pseudo, Playable, Judged, RootScore, InCheck, LegalMoves;
      ghost var st, keys := b.Value(), b.keys;
      PlayableSound(st.pos);
      var inCheck := BoardInCheck(b, b.side);
      best, move := -INFINITY, ms[0];
      var i := 0;
      while i < |ms|
        invariant 0 <= i <= |ms|
        invariant b.Valid() && b.Value() == st && search.table.Valid()
        invariant forall k :: 0 <= k < i ==> RootScore(keys, search.judge, st, ms[k], depth) <= best
        invariant if i == 0 then best == -INFINITY
                  else move in ms && RootScore(keys, search.judge, st, move, depth) == best
      {
        search.StillReady(b, 0, st);
        GeneratedFits(st.pos, ms[i]);
        var s := ScoreRootMove(b, ms[i], depth, al, be, inCheck);
        if s > best { best, move := s, ms[i]; }
        i := i + 1;
      }
    }

    /** Passes with a widening window until the best score lies inside it. The window changes nothing:
        the score is the minimax score of the root, and the widening ends. */
    method Aspire(b: Board, moves: seq<Move>, depth: int, last: int) returns (best: int, move: Move)
      requires search.Ready(b, 0) && search.table.Valid() && search.Apart(b)
      requires 0 < depth <= MAX_PLY && moves != [] && (forall m :: m in moves <==> m in LegalMoves(b.Position())) &&
               -MATE < last < MATE
      modifies b, b.mailbox, b.pieces, b.occupied, b.history, search.table.entries
      ensures b.Valid() && b.Value() == old(b.Value()) && search.table.Valid()
      ensures IsRootBest(b.keys, search.judge, old(b.Value()), depth, best)
      ensures move in moves && RootScore(b.keys, search.judge, old(b.Value()), move, depth) == best
    {
      hide Board.Coherent, Playable, Judged, RootScore, LegalMoves, IsRootBest;
      ghost var st, keys := b.Value(), b.keys;
      ghost var v := TrueBest(keys, search.judge, st, moves, depth);
      var asp, al, be := 25, -INFINITY, INFINITY;
      if depth >= 4 && !IsMate(last) {
        al, be := last - asp, last + asp;
      }
      var ms := search.OrderMoves(b, moves);
      SameMembers(ms, moves);
      best, move := Pass(b, ms, depth, al, be);
      RootBestUnique(keys, search.judge, st, depth, v, best);
      while (best <= al && al > -INFINITY) || (best >= be && be < INFINITY)
        invariant Window(al, be) && asp >= 25
        invariant b.Valid() && b.Value() == st && search.table.Valid()
        invariant best == v && IsRootBest(keys, search.judge, st, depth, best)
        invariant move in moves && RootScore(keys, search.judge, st, move, depth) == best
        decreases (if al > -INFINITY && v <= al then 1 else 0) + (if be < INFINITY && v >= be then 1 else 0)
      {
        asp := asp * 2;
        if best <= al && al > -INFINITY {
          al := if asp > 500 then -INFINITY else best - asp;
        } else {
          be := if asp > 500 then INFINITY else best + asp;
        }
        search.StillReady(b, 0, st);
        ms := search.OrderMoves(b, moves);
        SameMembers(ms, moves);
        best, move := Pass(b, ms, depth, al, be);
        RootBestUnique(keys, search.judge, st, depth, v, best);
      }
    }

    lemma TrueBest(keys: Keys, j: Judge, st: State, moves: seq<Move>, depth: int) returns (v: int)
      requires Judged(j) && moves != [] && forall m :: m in moves <==> m in LegalMoves(st.pos)
      ensures IsRootBest(keys, j, st, depth, v)
    {
      hide RootScore, LegalMoves, Judged;
      v := SomeBest(keys, j, st, moves, depth);
    }

    /** Think: deepen until the limit or a mate is found. The reported score is the exact minimax score
        of the root at the reported depth, and the reported move attains it. */
    method Think(b: Board, maxDepth: int) returns (result: Result)
      requires search.Ready(b, 0) && search.table.Valid() && search.Apart(b)
      modifies b, b.mailbox, b.pieces, b.occupied, b.history, search.table.entries
      ensures b.Valid() && b.Value() == old(b.Value()) && search.table.Valid()
      ensures result.depth == 0 <==> LegalMoves(old(b.Position())) == []
      ensures result.depth > 0 ==>
                && result.depth <= MAX_PLY
                && IsRootBest(b.keys, search.judge, old(b.Value()), result.depth, result.score)
                && result.best.Some? && result.best.value in LegalMoves(old(b.Position()))
                && RootScore(b.keys, search.judge, old(b.Value()), result.best.value, result.depth) == result.score
                && (IsMate(result.score) || result.depth == if 0 < maxDepth < MAX_PLY then maxDepth else MAX_PLY)
    {
      hide Board.Coherent, Playable, Judged, RootScore, LegalMoves, IsRootBest;
      ghost var st, keys := b.Value(), b.keys;
      PlayableSound(st.pos);
      var limit := if 0 < maxDepth < MAX_PLY then maxDepth else MAX_PLY;
      result := Result(None, 0, 0);
      var ml := new MoveList();
      GenerateMoves(b, ml);
      var moves := ml.moves;
      if moves == [] { return; }
      var depth := 1;
      while depth <= limit
        invariant 1 <= depth <= limit + 1
        invariant b.Valid() && b.Value() == st && search.table.Valid()
        invariant result.depth == depth - 1 && -MATE < result.score < MATE
        invariant result.depth > 0 ==>
                    && IsRootBest(keys, search.judge, st, result.depth, result.score)
                    && result.best.Some? && result.best.value in moves
                    && RootScore(keys, search.judge, st, result.best.value, result.depth) == result.score
      {
        search.StillReady(b, 0, st);
        var best, move := Aspire(b, moves, depth, result.score);
        RootBestUnique(keys, search.judge, st, depth, best, best);
        result := Result(Some(move), best, depth);
        if IsMate(best) { return; }
        depth := depth + 1;
      }
    }
  }
}
