/** The search as the engine runs it, with every cutoff, reduction and early stop. These do not keep the
    minimax value. What is proved is what no heuristic may break: the search ends, the undo stack and the
    per-ply tables hold it, history and all scores stay in range, and the board comes back as it was.
    Whether a heuristic acts is a free choice, so the results hold for all margins, evaluations and clocks. */
module PrunedSearch {
  import opened Types
  import opened Position
  import opened Attacks
  import opened Making
  import opened Boards
  import opened Rules
  import opened Reachable
  import opened Runs
  import opened Legality
  import opened AttackLookup
  import opened Generation
  import opened LegalGeneration
  import opened See
  import opened GameValue
  import opened Windows
  import opened Search
  import opened Root

  lemma NullKeepsPlayable(p: Pos)
    requires Playable(p)
    ensures Playable(NullMove(p))
  {
  }

  /** A score is never better than a mate on the spot. */
  predicate InRange(s: int) { -MATE <= s <= MATE }

  /** A window that some score can lie in or beyond. */
  predicate Open(alpha: int, beta: int) { Window(alpha, beta) && alpha <= MATE && -MATE <= beta }

  lemma VerdictsInRange(j: Judge, st: State, ply: nat)
    requires Judged(j) && ply <= MAX_PLY + MAX_QPLY
    ensures InRange(j.evaluate(st.pos))
    ensures QueenVerdict(st, ply).Some? ==> InRange(QueenVerdict(st, ply).value)
    ensures Verdict(st.pos, ply).Some? ==> InRange(Verdict(st.pos, ply).value)
  {
  }

  /** best is the highest of the scores, and move has it. */
  ghost predicate IsBest(ms: seq<Move>, scores: seq<int>, best: int, move: Move)
    requires |scores| == |ms|
  {
    (forall k :: 0 <= k < |ms| ==> scores[k] <= best) && exists k :: 0 <= k < |ms| && ms[k] == move && scores[k] == best
  }

  lemma BestSoFar(ms: seq<Move>, scores: seq<int>, best: int, move: Move, i: nat, s: int)
    requires i < |ms| && |scores| == i
    requires if i == 0 then best < s else IsBest(ms[..i], scores, best, move)
    ensures if s > best then IsBest(ms[..i + 1], scores + [s], s, ms[i])
            else IsBest(ms[..i + 1], scores + [s], best, move)
  {
    var more := ms[..i + 1];
    assert more[..i] == ms[..i] && more[i] == ms[i];
    if s > best {
      assert (scores + [s])[i] == s;
    } else {
      var k :| 0 <= k < i && ms[..i][k] == move && scores[k] == best;
      assert more[k] == move && (scores + [s])[k] == best;
    }
  }

  class Engine {
    const search: Searcher
    const evals: array<int>              // static evaluation by ply
    const killers: array2<Option<Move>>  // two killer moves by ply
    var tt: map<Word, int>               // transposition table: the score stored for a hash

    constructor (search: Searcher)
      ensures this.search == search && Shape() && tt == map[] && fresh(evals) && fresh(killers)
    {
      this.search := search;
      evals := new int[MAX_PLY + MAX_QPLY](_ => 0);
      killers := new Option<Move>[MAX_PLY, 2]((_, _) => None);
      tt := map[];
    }

    ghost predicate Shape() {
      evals.Length == MAX_PLY + MAX_QPLY && killers.Length0 == MAX_PLY && killers.Length1 == 2
    }

    /** The engine's tables are not part of the board. */
    ghost predicate Apart(b: Board) {
      && Shape() && search.Apart(b)
      && evals as object != b as object && evals as object != b.mailbox as object
      && evals as object != b.pieces as object && evals as object != b.occupied as object
      && evals as object != b.history as object && evals as object != search.table.entries as object
      && killers as object != b as object && killers as object != b.mailbox as object
      && killers as object != b.pieces as object && killers as object != b.occupied as object
      && killers as object != b.history as object && killers as object != search.table.entries as object
    }

    /** Every history entry and every stored score is in range. */
    ghost predicate Sane()
      reads this, search.table.entries
    {
      search.table.Valid() && forall h :: h in tt ==> InRange(tt[h])
    }

    ghost predicate Ready(b: Board, ply: int)
      reads this, b, b.mailbox, b.pieces, b.occupied, search.table.entries
    {
      search.Ready(b, ply) && Sane() && Apart(b)
    }

    lemma ReadyAgain(b: Board, ply: int, st: State)
      requires b.Valid() && b.Value() == st && Sane() && Apart(b)
      requires Judged(search.judge) && Playable(st.pos) && Room(|st.stack|, ply)
      ensures Ready(b, ply) && b.Position() == st.pos
    {
      hide Board.Coherent, Playable, Judged;
      search.StillReady(b, ply, st);
    }

    // ---- Quiescence ----------------------------------------------------------------------

    /** Make a move, search below it, unmake it. */
    method QuietChild(b: Board, m: Move, alpha: int, beta: int, ply: nat, qply: nat) returns (s: int)
      requires Ready(b, ply) && qply < MAX_QPLY && ply <= MAX_PLY + qply
      requires Pseudo(b.Position(), m) && Fits(b.Position(), m)
      requires Open(alpha, beta)
      modifies b, b.mailbox, b.pieces, b.occupied, b.history
      ensures b.Valid() && b.Value() == old(b.Value())
      ensures InRange(s)
      decreases MAX_QPLY - qply, 0
    {
      hide Board.Coherent, Fits, Pseudo, Next, Hash, Record, Playable, Judged;
      ghost var st := b.Value();
      var mover := b.side;
      PlayableKept(st.pos, m);
      b.MakeMove(m);
      search.MadeRoom(b, st, m);
      if b.side == mover {
        s := Quiet(b, alpha, beta, ply + 1, qply + 1);
      } else {
        s := Quiet(b, -beta, -alpha, ply + 1, qply + 1);
        s := -s;
      }
      LastOnStack(b, st, m);
      b.UnmakeMove(st);
    }

    /** The loop over evasions or captures; delta pruning may skip any of them. */
    method QuietLoop(b: Board, ms: seq<Move>, floor: int, alpha: int, beta: int, ply: nat, qply: nat)
      returns (best: int)
      requires Ready(b, ply) && qply < MAX_QPLY && ply <= MAX_PLY + qply
      requires forall m :: m in ms ==> Pseudo(b.Position(), m) && Fits(b.Position(), m)
      requires Open(alpha, beta) && floor < beta && (if floor == -INFINITY then ms != [] else InRange(floor))
      modifies b, b.mailbox, b.pieces, b.occupied, b.history
      ensures b.Valid() && b.Value() == old(b.Value())
      ensures InRange(best)
      decreases MAX_QPLY - qply, 1
    {
      hide Board.Coherent, Fits, Pseudo, Playable, Judged;
      ghost var st := b.Value();
      best := floor;
      var al := if floor > alpha then floor else alpha;
      for i := 0 to |ms|
        invariant b.Valid() && b.Value() == st && Sane()
        invariant floor <= best < beta && al == (if best > alpha then best else alpha)
        invariant best == floor || InRange(best)
        invariant i > 0 ==> InRange(best)
      {
        var hopeless: bool := *;
        if floor > -INFINITY && hopeless { continue; }
        ReadyAgain(b, ply, st);
        var s := QuietChild(b, ms[i], al, beta, ply, qply);
        var stopped: bool := *;
        if stopped { return 0; }
        if s > best { best := s; }
        if best > al { al := best; }
        if al >= beta { return; }
      }
    }

    /** Quiescence with pruning: the board comes back as it was, within the plies set aside for it. */
    method Quiet(b: Board, alpha: int, beta: int, ply: nat, qply: nat) returns (r: int)
      requires Ready(b, ply) && qply <= MAX_QPLY && ply <= MAX_PLY + qply
      requires Open(alpha, beta)
      modifies b, b.mailbox, b.pieces, b.occupied, b.history
      ensures b.Valid() && b.Value() == old(b.Value())
      ensures InRange(r)
      decreases MAX_QPLY - qply, 2
    {
      hide Board.Coherent, Fits, Pseudo, Playable, Judged, InCheck, QMoves, LegalMoves, QueenVerdict, Verdict;
      VerdictsInRange(search.judge, b.Value(), ply);
      var stopped: bool := *;
      if stopped { return 0; }
      var queen := search.FindQueenVerdict(b, ply);
      if queen.Some? { return queen.value; }
      if ply >= MAX_PLY + MAX_QPLY || qply >= MAX_QPLY { return search.judge.evaluate(b.Position()); }
      var verdict := search.FindVerdict(b, ply);
      if verdict.Some? { return verdict.value; }
      ghost var p := b.Position();
      PlayableSound(p);
      var inCheck := BoardInCheck(b, b.side);
      var ms := search.FindQMoves(b, qply, inCheck);
      forall m | m in ms ensures Pseudo(p, m) && Fits(p, m) { QMoveFits(search.judge, p, qply, m); }
      if inCheck {
        if ms == [] {
          var some := HasLegalMoves(b);
          return if some then search.judge.evaluate(b.Position()) else -(MATE - ply);
        }
        r := QuietLoop(b, ms, -INFINITY, alpha, beta, ply, qply);
      } else {
        var stand := search.judge.evaluate(b.Position());
        if stand >= beta { return stand; }
        r := QuietLoop(b, ms, stand, alpha, beta, ply, qply);
      }
    }

    // ---- One move ---------------------------------------------------------------------------

    /** Search below a move that has been made, at any depth up to one more than the parent's. */
    method Child(b: Board, d: int, alpha: int, beta: int, ply: nat, same: bool, isPv: bool) returns (s: int)
      requires Ready(b, ply + 1) && ply < MAX_PLY && d <= 64 + ply
      requires Open(alpha, beta)
      modifies b, b.mailbox, b.pieces, b.occupied, b.history, search.table.entries, evals, killers, this`tt
      ensures b.Valid() && b.Value() == old(b.Value()) && Sane()
      ensures InRange(s)
      decreases MAX_PLY - ply, 0, 0
    {
      if same {
        s := Alpha(b, d, alpha, beta, ply + 1, true, isPv);
      } else {
        s := Alpha(b, d, -beta, -alpha, ply + 1, true, isPv);
        s := -s;
      }
    }

    /** A late move: a null window at a reduced depth, again at full depth if it beats alpha, and again
        with the open window if it falls inside. */
    method LateMove(b: Board, newDepth: int, alpha: int, beta: int, ply: nat, same: bool) returns (s: int)
      requires Ready(b, ply + 1) && ply < MAX_PLY && newDepth <= 64 + ply
      requires Open(alpha, beta) && -MATE <= alpha
      modifies b, b.mailbox, b.pieces, b.occupied, b.history, search.table.entries, evals, killers, this`tt
      ensures b.Valid() && b.Value() == old(b.Value()) && Sane()
      ensures InRange(s)
      decreases MAX_PLY - ply, 0, 1
    {
      hide Board.Coherent, Playable, Judged;
      ghost var st := b.Value();
      var wanted: int := *;
      var most := if wanted < newDepth - 1 then wanted else newDepth - 1;
      var reduction := if most < 0 then 0 else most;
      s := Child(b, newDepth - reduction, alpha, alpha + 1, ply, same, false);
      if s > alpha && reduction > 0 {
        ReadyAgain(b, ply + 1, st);
        s := Child(b, newDepth, alpha, alpha + 1, ply, same, false);
      }
      if alpha < s < beta {
        ReadyAgain(b, ply + 1, st);
        s := Child(b, newDepth, alpha, beta, ply, same, true);
      }
    }

    /** Make a move; prune it, or extend and search it; unmake it. */
    method TryMove(b: Board, m: Move, depth: int, alpha: int, beta: int, ply: nat, done: nat, isPv: bool, inCheck: bool)
      returns (pruned: bool, s: int)
      requires Ready(b, ply) && ply < MAX_PLY && depth <= 63 + ply
      requires inCheck <==> InCheck(b.Position(), b.side)
      requires Pseudo(b.Position(), m) && Fits(b.Position(), m)
      requires Open(alpha, beta) && -MATE <= alpha
      modifies b, b.mailbox, b.pieces, b.occupied, b.history, search.table.entries, evals, killers, this`tt
      ensures b.Valid() && b.Value() == old(b.Value()) && Sane()
      ensures pruned ==> !isPv && !inCheck && done > 0
      ensures InRange(s)
      decreases MAX_PLY - ply, 0, 2
    {
      hide Board.Coherent, Fits, Pseudo, Next, Hash, Record, Playable, Judged, Extension, InCheck, Recaptures, SeeValue;
      ghost var st := b.Value();
      var p := b.Position();
      var see := 0;
      if IsCapture(m) { see := ComputeSee(b, m); }
      var recapture := search.IsRecapture(b, m);
      PlayableKept(st.pos, m);
      b.MakeMove(m);
      search.MadeRoom(b, st, m);
      pruned, s := false, 0;
      var hopeless: bool := *; // late, futile, or a losing capture
      if !isPv && !inCheck && done > 0 && hopeless {
        pruned := true;
      } else {
        var same := b.side == p.side;
        var ext := search.FindExtension(b, m, depth, inCheck, recapture, see, p, st);
        if done == 0 || (b.mod == KingsBattle && isPv && depth <= 4) {
          s := Child(b, depth - 1 + ext, alpha, beta, ply, same, isPv);
        } else {
          s := LateMove(b, depth - 1 + ext, alpha, beta, ply, same);
        }
      }
      LastOnStack(b, st, m);
      b.UnmakeMove(st);
    }

    method RecordKiller(m: Move, ply: nat)
      requires Shape() && ply < MAX_PLY
      modifies killers
      ensures killers[ply, 0] == Some(m)
      ensures killers[ply, 1] == if old(killers[ply, 0]) == Some(m) then old(killers[ply, 1]) else old(killers[ply, 0])
      ensures forall i, j :: 0 <= i < MAX_PLY && 0 <= j < 2 && i != ply ==> killers[i, j] == old(killers[i, j])
    {
      if killers[ply, 0] != Some(m) {
        killers[ply, 1] := killers[ply, 0];
        killers[ply, 0] := Some(m);
      }
    }

    // ---- A node -----------------------------------------------------------------------------

    /** The loop over the moves of a node. A quiet move that cuts off is rewarded at this node's depth,
        which is at most 126. */
    method Loop(b: Board, ms: seq<Move>, depth: int, alpha: int, beta: int, ply: nat, isPv: bool, inCheck: bool)
      returns (best: int)
      requires Ready(b, ply) && ply < MAX_PLY && 0 < depth <= 63 + ply
      requires inCheck <==> InCheck(b.Position(), b.side)
      requires forall m :: m in ms ==> Pseudo(b.Position(), m) && Fits(b.Position(), m)
      requires Open(alpha, beta) && -MATE <= alpha && ms != []
      modifies b, b.mailbox, b.pieces, b.occupied, b.history, search.table.entries, evals, killers, this`tt
      ensures b.Valid() && b.Value() == old(b.Value()) && Sane()
      ensures InRange(best)
      decreases MAX_PLY - ply, 0, 3
    {
      hide Board.Coherent, Fits, Pseudo, Playable, Judged, InCheck;
      ghost var st := b.Value();
      best := -INFINITY;
      var al, done: nat := alpha, 0;
      var quiets: seq<Move> := [];
      for i := 0 to |ms|
        invariant b.Valid() && b.Value() == st && Sane()
        invariant best < beta && al == (if best > alpha then best else alpha)
        invariant if done == 0 then i == 0 && best == -INFINITY else InRange(best)
      {
        var m := ms[i];
        ReadyAgain(b, ply, st);
        var pruned, s := TryMove(b, m, depth, al, beta, ply, done, isPv, inCheck);
        if pruned { continue; }
        var stopped: bool := *;
        if stopped { return 0; }
        if Searcher.IsQuiet(m) { quiets := quiets + [m]; }
        done := done + 1;
        if s > best { best := s; }
        if s > al { al := s; }
        if al >= beta {
          if Searcher.IsQuiet(m) {
            RecordKiller(m, ply);
            search.Reward(b.side, m, quiets, depth);
          }
          return;
        }
      }
    }

    /** Pass the turn and search: the ply counts one more but nothing is pushed on the undo stack. */
    method TryNull(b: Board, depth: int, beta: int, ply: nat) returns (s: int)
      requires Ready(b, ply) && ply < MAX_PLY && 3 <= depth <= 63 + ply
      requires InRange(beta)
      modifies b, b.mailbox, b.pieces, b.occupied, b.history, search.table.entries, evals, killers, this`tt
      ensures b.Valid() && b.Value() == old(b.Value()) && Sane()
      ensures InRange(s)
      decreases MAX_PLY - ply, 0, 0
    {
      hide Board.Coherent, Playable, Judged;
      ghost var st := b.Value();
      var side, ep, hash := b.side, b.ep, b.hash;
      NullKeepsPlayable(st.pos);
      b.MakeNull();
      ghost var passed := b.Value();
      assert passed.stack == st.stack;
      ReadyAgain(b, ply + 1, passed);
      s := Alpha(b, depth - (3 + depth / 4), -beta, -beta + 1, ply + 1, false, false);
      s := -s;
      ghost var back := b.Value();
      b.UnmakeNull(side, ep, hash);
      assert b.Value().stack == back.stack;
    }

    /** Note the static evaluation of a ply and tell whether it has risen since two plies ago. */
    method Note(b: Board, ply: nat, inCheck: bool) returns (eval: int, improving: bool)
      requires Shape() && b.Valid() && ply < MAX_PLY
      modifies evals
      ensures eval == if inCheck then -INFINITY else search.judge.evaluate(b.Position())
      ensures improving <==> !inCheck && ply >= 2 && eval > old(evals[ply - 2])
      ensures evals[..] == old(evals[..])[ply := eval]
    {
      hide Board.Coherent;
      eval := if inCheck then -INFINITY else search.judge.evaluate(b.Position());
      evals[ply] := eval;
      improving := !inCheck && ply >= 2 && evals[ply] > evals[ply - 2];
    }

    /** The cutoffs before any move is tried: table, razoring, reverse futility, null move. */
    method CutBefore(b: Board, depth: int, alpha: int, beta: int, ply: nat, doNull: bool, isPv: bool, inCheck: bool)
      returns (cut: Option<int>)
      requires Ready(b, ply) && ply < MAX_PLY && 0 < depth <= 63 + ply
      requires Open(alpha, beta) && InRange(beta)
      modifies b, b.mailbox, b.pieces, b.occupied, b.history, search.table.entries, evals, killers, this`tt
      ensures b.Valid() && b.Value() == old(b.Value()) && Sane()
      ensures cut.Some? ==> InRange(cut.value)
      decreases MAX_PLY - ply, depth, 0
    {
      hide Board.Coherent, Playable;
      ghost var st := b.Value();
      var trusted, razor, bold, pass, believed: bool := *, *, *, *, *;
      if b.hash in tt && !isPv && trusted { return Some(tt[b.hash]); }
      var guess, _ := Note(b, ply, inCheck);
      if b.hash in tt && trusted { guess := tt[b.hash]; }
      if !isPv && !inCheck && razor && depth <= 2 {
        ReadyAgain(b, ply, st);
        var r := Quiet(b, alpha, beta, ply, 0);
        if r < alpha { return Some(r); }
      }
      if !isPv && !inCheck && bold && depth <= 6 && guess >= beta { return Some(guess); }
      if !isPv && !inCheck && doNull && pass && depth >= 3 && ply > 0 && guess >= beta {
        ReadyAgain(b, ply, st);
        var s := TryNull(b, depth, beta, ply);
        var stopped: bool := *;
        if stopped { return Some(0); }
        if s >= beta && believed { return Some(s); }
      }
      return None;
    }

    /** Store a score: another entry may have to go, or the new one may not get in. */
    method Store(h: Word, score: int)
      requires InRange(score) && Sane()
      modifies this`tt
      ensures Sane() && forall k :: k in tt ==> if k == h && k !in old(tt) then tt[k] == score
                                               else k in old(tt) && (tt[k] == old(tt)[k] || (k == h && tt[k] == score))
    {
      var gone: set<Word> := *;
      var enters: bool := *;
      if enters { tt := (tt - gone)[h := score]; }
    }

    /** Generate, deepen internally, order and try the moves of a node. */
    method Moves(b: Board, depth: int, alpha: int, beta: int, ply: nat, isPv: bool, inCheck: bool) returns (r: int)
      requires Ready(b, ply) && ply < MAX_PLY && 0 < depth <= 63 + ply
      requires Open(alpha, beta) && -MATE <= alpha && (inCheck <==> InCheck(b.Position(), b.side))
      modifies b, b.mailbox, b.pieces, b.occupied, b.history, search.table.entries, evals, killers, this`tt
      ensures b.Valid() && b.Value() == old(b.Value()) && Sane()
      ensures InRange(r)
      decreases MAX_PLY - ply, depth, 0
    {
      hide Board.Coherent, Fits, Pseudo, Playable, InCheck, LegalMoves, Judged, Sound;
      ghost var st := b.Value();
      PlayableSound(st.pos);
      var ml := new MoveList();
      GenerateMoves(b, ml);
      var moves := ml.moves;
      if moves == [] {
        r := search.StuckScore(b, ply, inCheck);
        return;
      }
      var known: bool := *; // the transposition table suggests a move
      if isPv && depth >= 4 && !known && !inCheck {
        var _ := Alpha(b, depth - 2, alpha, beta, ply, false, true);
        ReadyAgain(b, ply, st);
      }
      var ms := search.OrderMoves(b, moves);
      SameMembers(ms, moves);
      forall m | m in ms ensures Pseudo(st.pos, m) && Fits(st.pos, m) { GeneratedFits(st.pos, m); }
      r := Loop(b, ms, depth, alpha, beta, ply, isPv, inCheck);
      Store(b.hash, r);
    }

    /** A node with depth to search: clamp the window, try the cutoffs, try the moves. */
    method Node(b: Board, depth: int, alpha: int, beta: int, ply: nat, doNull: bool, isPv: bool) returns (r: int)
      requires Ready(b, ply) && ply < MAX_PLY && 0 < depth <= 63 + ply
      requires Open(alpha, beta)
      modifies b, b.mailbox, b.pieces, b.occupied, b.history, search.table.entries, evals, killers, this`tt
      ensures b.Valid() && b.Value() == old(b.Value()) && Sane()
      ensures InRange(r)
      decreases MAX_PLY - ply, depth, 1
    {
      hide Board.Coherent, Playable, InCheck, Judged;
      ghost var st := b.Value();
      var inCheck := BoardInCheck(b, b.side);
      var lo, hi := -(MATE - ply), MATE - ply - 1;
      var a := if alpha < lo then lo else alpha;
      var be := if beta > hi then hi else beta;
      if a >= be { return a; }
      var cut := CutBefore(b, depth, a, be, ply, doNull, isPv, inCheck);
      if cut.Some? { return cut.value; }
      ReadyAgain(b, ply, st);
      r := Moves(b, depth, a, be, ply, isPv, inCheck);
    }

    /** The whole search, whatever its heuristics decide. It ends although a child may be searched deeper
        than its parent: the ply rises with every move and every null move, and iterative deepening at the
        same ply lowers the depth. */
    method Alpha(b: Board, depth: int, alpha: int, beta: int, ply: nat, doNull: bool, isPv: bool) returns (r: int)
      requires Ready(b, ply) && ply <= MAX_PLY && depth <= 63 + ply
      requires Open(alpha, beta)
      modifies b, b.mailbox, b.pieces, b.occupied, b.history, search.table.entries, evals, killers, this`tt
      ensures b.Valid() && b.Value() == old(b.Value()) && Sane()
      ensures InRange(r)
      decreases MAX_PLY - ply, depth, 2
    {
      hide Board.Coherent, Playable, Judged, QueenVerdict, Verdict;
      VerdictsInRange(search.judge, b.Value(), ply);
      var stopped: bool := *;
      if stopped { return 0; }
      var repeated := search.IsRepetition(b);
      if repeated { return 0; }
      var queen := search.FindQueenVerdict(b, ply);
      if queen.Some? { return queen.value; }
      if ply >= MAX_PLY { return search.judge.evaluate(b.Position()); }
      if depth <= 0 {
        r := Quiet(b, alpha, beta, ply, 0);
        return;
      }
      var verdict := search.FindVerdict(b, ply);
      if verdict.Some? { return verdict.value; }
      r := Node(b, depth, alpha, beta, ply, doNull, isPv);
    }

    // ---- The root -----------------------------------------------------------------------------

    /** Score one root move; outside a closed window it is searched again in full. */
    method RateMove(b: Board, m: Move, depth: int, al: int, be: int, inCheck: bool) returns (s: int)
      requires Ready(b, 0) && Open(al, be) && depth <= MAX_PLY
      requires Pseudo(b.Position(), m) && Fits(b.Position(), m)
      modifies b, b.mailbox, b.pieces, b.occupied, b.history, search.table.entries, evals, killers, this`tt
      ensures b.Valid() && b.Value() == old(b.Value()) && Sane()
      ensures InRange(s)
    {
      hide Board.Coherent, Fits, Pseudo, Next, Hash, Record, Playable, Judged, InCheck;
      ghost var st := b.Value();
      var mover := b.side;
      PlayableKept(st.pos, m);
      b.MakeMove(m);
      search.MadeRoom(b, st, m);
      var same := b.side == mover;
      var gives := BoardInCheck(b, if same then Opposite(mover) else b.side);
      var ext := if inCheck || gives then 1 else 0;
      s := Child(b, depth - 1 + ext, al, be, 0, same, true);
      if (s <= al || s >= be) && (al > -INFINITY || be < INFINITY) {
        ReadyAgain(b, 1, Make(b.keys, st, m));
        s := Child(b, depth - 1 + ext, -INFINITY, INFINITY, 0, same, true);
      }
      LastOnStack(b, st, m);
      b.UnmakeMove(st);
    }

    /** One pass over the root moves, unless it is stopped: their scores, and the best of them. */
    method RatePass(b: Board, ms: seq<Move>, depth: int, al: int, be: int)
      returns (scores: seq<int>, best: int, move: Move, stopped: bool)
      requires Ready(b, 0) && Open(al, be) && depth <= MAX_PLY && ms != []
      requires forall m :: m in ms ==> Pseudo(b.Position(), m) && Fits(b.Position(), m)
      modifies b, b.mailbox, b.pieces, b.occupied, b.history, search.table.entries, evals, killers, this`tt
      ensures b.Valid() && b.Value() == old(b.Value()) && Sane()
      ensures !stopped ==> InRange(best) && |scores| == |ms| && IsBest(ms, scores, best, move)
    {
      hide Board.Coherent, Fits, Pseudo, Playable, Judged, InCheck;
      ghost var st := b.Value();
      var inCheck := BoardInCheck(b, b.side);
      scores, best, move, stopped := [], -INFINITY, ms[0], false;
      for i := 0 to |ms|
        invariant b.Valid() && b.Value() == st && Sane()
        invariant |scores| == i
        invariant if i == 0 then best == -INFINITY else InRange(best) && IsBest(ms[..i], scores, best, move)
      {
        ReadyAgain(b, 0, st);
        var s := RateMove(b, ms[i], depth, al, be, inCheck);
        stopped := *;
        if stopped { return; }
        BestSoFar(ms, scores, best, move, i, s);
        scores := scores + [s];
        if s > best { best, move := s, ms[i]; }
      }
      assert ms[..|ms|] == ms;
    }

    /** Widen until the best score lies inside the window. This ends even though a pass with a new window
        may return any scores: the margin doubles, and past 500 each failure opens one side for good. */
    method Widen(b: Board, moves: seq<Move>, depth: int, last: int)
      returns (ms: seq<Move>, scores: seq<int>, best: int, move: Move, stopped: bool)
      requires Ready(b, 0) && depth <= MAX_PLY && moves != [] && InRange(last)
      requires forall m :: m in moves ==> Pseudo(b.Position(), m) && Fits(b.Position(), m)
      modifies b, b.mailbox, b.pieces, b.occupied, b.history, search.table.entries, evals, killers, this`tt
      ensures b.Valid() && b.Value() == old(b.Value()) && Sane()
      ensures multiset(ms) == multiset(moves)
      ensures !stopped ==> InRange(best) && |scores| == |ms| && IsBest(ms, scores, best, move)
    {
      hide Board.Coherent, Fits, Pseudo, Playable, Judged, IsBest;
      ghost var st := b.Value();
      var asp, al, be := 25, -INFINITY, INFINITY;
      if depth >= 4 && !IsMate(last) { al, be := last - asp, last + asp; }
      ms := search.OrderMoves(b, moves);
      SameMembers(ms, moves);
      scores, best, move, stopped := RatePass(b, ms, depth, al, be);
      while !stopped && ((best <= al && al > -INFINITY) || (best >= be && be < INFINITY))
        invariant b.Valid() && b.Value() == st && Sane()
        invariant asp >= 25 && Open(al, be)
        invariant multiset(ms) == multiset(moves)
        invariant !stopped ==> InRange(best) && |scores| == |ms| && IsBest(ms, scores, best, move)
        decreases if asp <= 500 then 501 - asp else 0,
                  (if al > -INFINITY then 1 else 0) + (if be < INFINITY then 1 else 0), !stopped
      {
        asp := asp * 2;
        if best <= al && al > -INFINITY {
          al := if asp > 500 then -INFINITY else best - asp;
        } else {
          be := if asp > 500 then INFINITY else best + asp;
        }
        ReadyAgain(b, 0, st);
        ms := search.OrderMoves(b, ms);
        SameMembers(ms, moves);
        scores, best, move, stopped := RatePass(b, ms, depth, al, be);
      }
    }

    /** What a pass over the given root moves has found. */
    static ghost predicate Found(moves: seq<Move>, report: Report) {
      && multiset(report.moves) == multiset(moves) && |report.scores| == |report.moves|
      && IsBest(report.moves, report.scores, report.best, report.move)
    }

    /** The choice is one of the moves, and scored within the margin; after a mate it is a best one. */
    static ghost predicate Chosen(moves: seq<Move>, report: Report, margin: int, choice: Move) {
      && Found(moves, report) && choice in moves
      && Near(report, if margin > 0 && !IsMate(report.best) then margin else 0, choice)
    }

    /** One iteration: rate the root moves at a depth, and choose. */
    method Iterate(b: Board, moves: seq<Move>, depth: int, last: int, margin: int, band: nat, strong: bool, dice: nat)
      returns (stopped: bool, report: Report, choice: Move)
      requires Ready(b, 0) && depth <= MAX_PLY && moves != [] && InRange(last)
      requires forall m :: m in moves ==> Pseudo(b.Position(), m) && Fits(b.Position(), m)
      modifies b, b.mailbox, b.pieces, b.occupied, b.history, search.table.entries, evals, killers, this`tt
      ensures b.Valid() && b.Value() == old(b.Value()) && Sane()
      ensures !stopped ==> InRange(report.best) && Chosen(moves, report, margin, choice)
    {
      hide Board.Coherent, Fits, Pseudo, Playable, Judged, IsBest, Near;
      var ms, scores, best, move, halted := Widen(b, moves, depth, last);
      stopped, report, choice := halted, Report(ms, scores, best, move), move;
      if stopped { return; }
      SameMembers(ms, moves);
      choice := Choose(report, if IsMate(best) then 0 else margin, band, strong, dice);
    }

    /** Deepen until the limit, a mate or the clock. A move is named if and only if an iteration was completed;
        it is legal and scored within the margin in the last completed one. Unless stopped, the search reaches
        the limit or a mate. Whatever happened, the board comes back as it was. */
    method Think(b: Board, maxDepth: int, margin: int, band: nat, strong: bool, dice: nat)
      returns (choice: Option<Move>, done: nat, stopped: bool, report: Report)
      requires Ready(b, 0)
      modifies b, b.mailbox, b.pieces, b.occupied, b.history, search.table.entries, evals, killers, this`tt
      ensures b.Valid() && b.Value() == old(b.Value()) && Sane()
      ensures choice.Some? <==> done > 0
      ensures done > 0 ==> Chosen(LegalMoves(old(b.Position())), report, margin, choice.value)
      ensures !stopped && LegalMoves(old(b.Position())) != [] ==>
                done > 0 && (IsMate(report.best) || done == if 0 < maxDepth < MAX_PLY then maxDepth else MAX_PLY)
    {
      hide Board.Coherent, Fits, Pseudo, Playable, Judged, LegalMoves, Sound, Chosen;
      ghost var st := b.Value();
      PlayableSound(st.pos);
      var limit := if 0 < maxDepth < MAX_PLY then maxDepth else MAX_PLY;
      choice, done, stopped, report := None, 0, false, Report([], [], 0, Simple(0, 0, Pawn));
      var ml := new MoveList();
      GenerateMoves(b, ml);
      var moves := ml.moves;
      if moves == [] { return; }
      forall m | m in moves ensures Pseudo(st.pos, m) && Fits(st.pos, m) { GeneratedFits(st.pos, m); }
      while done < limit
        invariant 0 <= done <= limit && !stopped
        invariant b.Valid() && b.Value() == st && Sane() && InRange(report.best)
        invariant choice.Some? <==> done > 0
        invariant done > 0 ==> Chosen(moves, report, margin, choice.value)
      {
        ReadyAgain(b, 0, st);
        var halted, found, chosen := Iterate(b, moves, done + 1, report.best, margin, band, strong, dice);
        stopped := halted;
        if stopped { return; }
        choice, done, report := Some(chosen), done + 1, found;
        if IsMate(report.best) { return; }
      }
    }
  }

  /** The root moves of an iteration, their scores, the best score and the move that has it. */
  datatype Report = Report(moves: seq<Move>, scores: seq<int>, best: int, move: Move)

  /** A move that scored within the margin of the best. */
  ghost predicate Near(r: Report, margin: int, m: Move)
    requires |r.scores| == |r.moves|
  {
    exists k :: 0 <= k < |r.moves| && r.moves[k] == m && r.best - r.scores[k] <= margin
  }

  /** Choose among the moves within a margin of the best. A strong player draws evenly from those within
      a narrow band of it as well; a weak one draws by weight, the better a score the likelier. */
  method Choose(r: Report, margin: int, band: nat, strong: bool, dice: nat) returns (choice: Move)
    requires |r.scores| == |r.moves| && IsBest(r.moves, r.scores, r.best, r.move)
    ensures choice in r.moves && Near(r, if margin > 0 then margin else 0, choice)
    ensures strong ==> Near(r, band, choice)
  {
    choice := r.move;
    if margin <= 0 { return; }
    if strong {
      var top := [];
      for i := 0 to |r.moves|
        invariant forall m :: m in top ==> m in r.moves && Near(r, margin, m) && Near(r, band, m)
      {
        var behind := r.best - r.scores[i];
        if behind <= margin && behind <= band { top := top + [r.moves[i]]; }
      }
      if top != [] { choice := top[dice % |top|]; }
    } else {
      choice := Weighted(r, margin, dice);
    }
  }

  method Weighted(r: Report, margin: nat, dice: nat) returns (choice: Move)
    requires |r.scores| == |r.moves| && IsBest(r.moves, r.scores, r.best, r.move)
    ensures choice in r.moves && Near(r, margin, choice)
  {
    choice := r.move;
    var total := 0;
    for i := 0 to |r.moves|
      invariant total >= 0
    {
      if r.best - r.scores[i] <= margin { total := total + r.scores[i] - (r.best - margin) + 1; }
    }
    if total == 0 { return; }
    var pick, sum := dice % total, 0;
    for i := 0 to |r.moves| {
      if r.best - r.scores[i] <= margin {
        sum := sum + r.scores[i] - (r.best - margin) + 1;
        if pick < sum { return r.moves[i]; }
      }
    }
  }
}
