/** Search windows: what a fail-soft result says about the true value. */
module Windows {
  import opened Types
  import opened Making
  import opened GameValue

  /** r answers for v within the window: an upper bound below it, a lower bound above it, exact inside. */
  predicate Bracket(r: int, alpha: int, beta: int, v: int) {
    (r <= alpha ==> v <= r) && (r >= beta ==> v >= r) && (alpha < r < beta ==> v == r)
  }

  predicate Window(alpha: int, beta: int) { -INFINITY <= alpha < beta <= INFINITY }

  /** Negating window, answer and value together. */
  lemma Negated(r: int, alpha: int, beta: int, v: int)
    ensures Bracket(r, -beta, -alpha, v) <==> Bracket(-r, alpha, beta, -v)
  {
  }

  /** Clamping the window to the scores a ply can still produce loses nothing. */
  lemma Clamped(r: int, alpha: int, beta: int, lo: int, hi: int, v: int)
    requires lo <= v <= hi
    requires Bracket(r, if alpha < lo then lo else alpha, if beta > hi then hi else beta, v)
    ensures Bracket(r, alpha, beta, v)
  {
  }

  /** A window that the clamp closes is answered by its lower end. */
  lemma ClampedShut(alpha: int, beta: int, lo: int, hi: int, v: int)
    requires lo <= v <= hi && alpha < beta
    ensures var a, b := if alpha < lo then lo else alpha, if beta > hi then hi else beta;
            a >= b ==> Bracket(a, alpha, beta, v)
  {
  }

  /** The best score is reached and never passed. */
  lemma {:induction false} BestIsMax(keys: Keys, j: Judge, st: State, ms: seq<Move>, depth: int, ply: nat)
    requires Judged(j) && ply < MAX_PLY && ms != []
    ensures forall m :: m in ms ==> Score(keys, j, st, m, depth, ply) <= Best(keys, j, st, ms, depth, ply)
    ensures exists m :: m in ms && Score(keys, j, st, m, depth, ply) == Best(keys, j, st, ms, depth, ply)
  {
    hide Score, Judged;
    assert ms == [ms[0]] + ms[1..];
    if |ms| > 1 {
      BestIsMax(keys, j, st, ms[1..], depth, ply);
    }
  }

  lemma {:induction false} QBestIsMax(keys: Keys, j: Judge, st: State, ms: seq<Move>, ply: nat, qply: nat)
    requires Judged(j) && qply < MAX_QPLY && ply <= MAX_PLY + qply && ms != []
    ensures forall m :: m in ms ==> QScore(keys, j, st, m, ply, qply) <= QBest(keys, j, st, ms, ply, qply)
    ensures exists m :: m in ms && QScore(keys, j, st, m, ply, qply) == QBest(keys, j, st, ms, ply, qply)
  {
    hide QScore, Judged;
    assert ms == [ms[0]] + ms[1..];
    if |ms| > 1 {
      QBestIsMax(keys, j, st, ms[1..], ply, qply);
    }
  }
}
