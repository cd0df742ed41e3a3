/** What a position is worth: plain minimax over the tree that the search explores, with its
    extensions, its quiescence rules and its terminal scores. */
module GameValue {
  import opened Types
  import opened Bitboards
  import opened Position
  import opened Attacks
  import opened Making
  import opened Legality
  import opened See

  const INFINITY := 999999
  const MATE := 100000
  const MAX_PLY := 64
  const MAX_QPLY := 8

  /** Static evaluation and the variant heuristics that steer extensions, taken as given. */
  datatype Judge = Judge(
    evaluate: Pos -> int,
    pawnRace: (Pos, Move) -> int,
    selfCapture: (Pos, Move) -> int,
    heirTactical: (Pos, Move, int) -> bool,
    heirCritical: (Pos, Move) -> bool)

  /** Static evaluation never looks like a mate score. */
  ghost predicate Judged(j: Judge) {
    forall p :: -MATE + 500 <= j.evaluate(p) <= MATE - 500
  }

  // ---- Endings ---------------------------------------------------------------------

  predicate QueenHome(at: Placement, c: Color) {
    var queens := Of(at, c, Queen);
    queens != {} && OwnHalf(Lsb(queens), c) && Lsb(queens) == Prison(Opposite(c))
  }

  /** Save the Queen: a queen home wins; so does capturing an escaped queen. */
  function QueenVerdict(st: State, ply: int): Option<int> {
    var us := st.pos.side;
    if st.pos.mod != SaveQueen then None
    else if QueenHome(st.pos.at, us) then Some(MATE - ply)
    else if QueenHome(st.pos.at, Opposite(us)) then Some(-(MATE - ply))
    else if st.stack == [] then None
    else
      var u := st.stack[|st.stack| - 1];
      if u.captured.Man? && u.captured.kind == Queen && u.capturedSq != NO_SQUARE &&
          OwnHalf(u.capturedSq, u.captured.color)
      then Some(if u.captured.color == us then -(MATE - ply) else MATE - ply)
      else None
  }

  /** Heir: no king and no way to crown another. */
  predicate HeirLost(p: Pos) {
    p.mod == Heir && Of(p.at, p.side, King) == {} && HeirCheckApplies(p, p.side)
  }

  predicate SuccessionFailed(p: Pos, c: Color) {
    !HeirPromoted(p, c) && (|Of(p.at, c, Queen)| < 2 || Of(p.at, c, Pawn) == {})
  }

  function SuccessionVerdict(p: Pos, ply: int): Option<int> {
    if p.mod != Succession then None
    else if HeirPromoted(p, Opposite(p.side)) || SuccessionFailed(p, p.side) then Some(-(MATE - ply))
    else if SuccessionFailed(p, Opposite(p.side)) then Some(MATE - ply)
    else None
  }

  /** The current hash occurred before, an even number of plies ago. */
  predicate Repeated(st: State) {
    |st.stack| >= 4 &&
    exists i :: 0 <= i <= |st.stack| - 2 && (|st.stack| - i) % 2 == 0 && st.stack[i].hash == st.hash
  }

  // ---- Extensions --------------------------------------------------------------------

  predicate GivesCheck(q: Pos, mover: Color) {
    InCheck(q, if q.side == mover then Opposite(mover) else q.side)
  }

  /** A capture on the square where the last move captured. */
  predicate Recaptures(st: State, m: Move) {
    IsCapture(m) && st.stack != [] &&
    var prev := st.stack[|st.stack| - 1].move; IsCapture(prev) && prev.to == m.to
  }

  /** What the extension rules look at. */
  datatype Signs = Signs(inCheck: bool, givesCheck: bool, recapture: bool, few: bool, see: int)

  function AtLeast(ext: int, on: bool, n: int): int { if on && ext < n then n else ext }

  function Phase1Extension(j: Judge, p: Pos, m: Move, depth: int, ext: int): int {
    var quiet := !IsCapture(m) && m.promo.None?;
    var race := if m.piece == Pawn then j.pawnRace(p, m) else 0;
    var e1 := AtLeast(ext, depth >= 3 && !quiet, 1);
    var e2 := AtLeast(e1, depth >= 4 && m.piece == Pawn && m.captured == Some(Pawn), 2);
    if depth >= 4 && m.piece == Pawn && race >= 320 then AtLeast(e2, true, 2)
    else AtLeast(e2, depth >= 3 && m.piece == Pawn && quiet && race >= 220, 1)
  }

  function VariantExtension(j: Judge, p: Pos, m: Move, s: Signs): bool {
    || (p.mod == FriendlyFire && IsCapture(m) && j.selfCapture(p, m) >= 140)
    || s.recapture
    || (p.mod == Mercenary && s.few && IsCapture(m))
    || (p.mod == Heir && (j.heirTactical(p, m, s.see) || j.heirCritical(p, m)))
  }

  function ExtensionBy(j: Judge, p: Pos, m: Move, depth: int, s: Signs): (ext: int)
    ensures 0 <= ext <= 2
  {
    var e0 := AtLeast(if s.givesCheck then 1 else 0, s.inCheck && depth >= 2, 1);
    var e1 := if Locked(p) then Phase1Extension(j, p, m, depth, e0) else e0;
    if e1 == 0 && depth >= 4 && VariantExtension(j, p, m, s) then 1 else e1
  }

  function SignsOf(st: State, m: Move): Signs {
    var q := Next(st.pos, m);
    Signs(InCheck(st.pos, st.pos.side), GivesCheck(q, st.pos.side), Recaptures(st, m), |All(q.at)| <= 16,
          if IsCapture(m) then SeeValue(st.pos, m) else 0)
  }

  function Extension(j: Judge, st: State, m: Move, depth: int): (ext: int)
    ensures 0 <= ext <= 2
  {
    ExtensionBy(j, st.pos, m, depth, SignsOf(st, m))
  }

  // ---- Quiescence ----------------------------------------------------------------------

  /** A capture good enough to be looked at in a quiet search. */
  predicate Promising(j: Judge, p: Pos, m: Move, qply: int) {
    var see := SeeValue(p, m);
    if p.mod == Mercenary then (if qply < 4 then see >= -50 else see > 0)
    else if p.mod == FriendlyFire && j.selfCapture(p, m) >= 140 then see >= -220
    else see >= 0
  }

  function KeepPromising(j: Judge, p: Pos, ms: seq<Move>, qply: int): seq<Move> {
    if ms == [] then []
    else (if Promising(j, p, ms[0], qply) then [ms[0]] else []) + KeepPromising(j, p, ms[1..], qply)
  }

  /** A child's value seen from the mover: negated only when the turn passes. */
  function Signed(before: Pos, after: Pos, v: int): int { if after.side == before.side then v else -v }

  function QSettled(j: Judge, st: State, ply: nat, qply: int): (v: Option<int>)
    requires Judged(j) && ply <= MAX_PLY + MAX_QPLY
    ensures v.Some? ==> -(MATE - ply) <= v.value <= MATE - ply
  {
    var queen := QueenVerdict(st, ply);
    if queen.Some? then queen
    else if ply >= MAX_PLY + MAX_QPLY || qply >= MAX_QPLY then Some(j.evaluate(st.pos))
    else if HeirLost(st.pos) then Some(-(MATE - ply))
    else SuccessionVerdict(st.pos, ply)
  }

  /** In check all evasions are searched at first, later only captures; otherwise good captures. */
  function QMoves(j: Judge, p: Pos, qply: int): seq<Move> {
    if !InCheck(p, p.side) then KeepPromising(j, p, LegalCaptures(p), qply)
    else if qply >= 4 then LegalCaptures(p)
    else LegalMoves(p)
  }

  /** The value when there is nothing to search: mated, or the static evaluation. */
  function QStand(j: Judge, p: Pos, ply: nat): (v: int)
    requires Judged(j) && ply <= MAX_PLY + MAX_QPLY
    ensures -(MATE - ply) <= v <= MATE - ply - 1
  {
    if InCheck(p, p.side) && LegalMoves(p) == [] then -(MATE - ply) else j.evaluate(p)
  }

  ghost function QValue(keys: Keys, j: Judge, st: State, ply: nat, qply: nat): (v: int)
    requires Judged(j) && qply <= MAX_QPLY && ply <= MAX_PLY + qply
    ensures -(MATE - ply) <= v <= MATE - ply
    ensures QSettled(j, st, ply, qply).None? ==> v <= MATE - ply - 1
    decreases MAX_QPLY - qply, 1, 0
  {
    hide QMoves, QStand, InCheck;
    var ms := QMoves(j, st.pos, qply);
    if QSettled(j, st, ply, qply).Some? then QSettled(j, st, ply, qply).value
    else if ms == [] then QStand(j, st.pos, ply)
    else
      var best := QBest(keys, j, st, ms, ply, qply);
      if !InCheck(st.pos, st.pos.side) && best <= QStand(j, st.pos, ply) then QStand(j, st.pos, ply) else best
  }

  ghost function QScore(keys: Keys, j: Judge, st: State, m: Move, ply: nat, qply: nat): (v: int)
    requires Judged(j) && qply < MAX_QPLY && ply <= MAX_PLY + qply
    ensures -(MATE - ply - 1) <= v <= MATE - ply - 1
    decreases MAX_QPLY - qply, 0, 0
  {
    hide Make;
    var after := Make(keys, st, m);
    Signed(st.pos, after.pos, QValue(keys, j, after, ply + 1, qply + 1))
  }

  ghost function QBest(keys: Keys, j: Judge, st: State, ms: seq<Move>, ply: nat, qply: nat): (v: int)
    requires Judged(j) && qply < MAX_QPLY && ply <= MAX_PLY + qply && ms != []
    ensures -(MATE - ply - 1) <= v <= MATE - ply - 1
    decreases MAX_QPLY - qply, 0, |ms|
  {
    var first := QScore(keys, j, st, ms[0], ply, qply);
    if |ms| == 1 then first
    else
      var rest := QBest(keys, j, st, ms[1..], ply, qply);
      if first > rest then first else rest
  }

  // ---- Main search -----------------------------------------------------------------------

  function Settled(j: Judge, st: State, ply: nat): (v: Option<int>)
    requires Judged(j) && ply <= MAX_PLY
    ensures v.Some? ==> -(MATE - ply) <= v.value <= MATE - ply
  {
    if Repeated(st) then Some(0)
    else if QueenVerdict(st, ply).Some? then QueenVerdict(st, ply)
    else if ply >= MAX_PLY then Some(j.evaluate(st.pos))
    else None
  }

  /** Terminal scores that are looked at once depth remains. */
  function Verdict(p: Pos, ply: int): Option<int> {
    if HeirLost(p) then Some(-(MATE - ply)) else SuccessionVerdict(p, ply)
  }

  /** No legal move: mate, a kingless Heir side, or stalemate. */
  function Stuck(p: Pos, ply: int): int {
    if InCheck(p, p.side) || (p.mod == Heir && Of(p.at, p.side, King) == {}) then -(MATE - ply) else 0
  }

  ghost function Value(keys: Keys, j: Judge, st: State, depth: int, ply: nat): (v: int)
    requires Judged(j) && ply <= MAX_PLY
    ensures -(MATE - ply) <= v <= MATE - ply
    ensures Settled(j, st, ply).None? && depth > 0 && Verdict(st.pos, ply).None? ==> v <= MATE - ply - 1
    decreases MAX_PLY - ply, 1, 0
  {
    hide Settled, LegalMoves, InCheck;
    if Settled(j, st, ply).Some? then Settled(j, st, ply).value
    else if depth <= 0 then QValue(keys, j, st, ply, 0)
    else if Verdict(st.pos, ply).Some? then Verdict(st.pos, ply).value
    else if LegalMoves(st.pos) == [] then Stuck(st.pos, ply)
    else Best(keys, j, st, LegalMoves(st.pos), depth, ply)
  }

  ghost function Score(keys: Keys, j: Judge, st: State, m: Move, depth: int, ply: nat): (v: int)
    requires Judged(j) && ply < MAX_PLY
    ensures -(MATE - ply - 1) <= v <= MATE - ply - 1
    decreases MAX_PLY - ply, 0, 0
  {
    hide Make, Extension;
    var after := Make(keys, st, m);
    Signed(st.pos, after.pos, Value(keys, j, after, depth - 1 + Extension(j, st, m, depth), ply + 1))
  }

  ghost function Best(keys: Keys, j: Judge, st: State, ms: seq<Move>, depth: int, ply: nat): (v: int)
    requires Judged(j) && ply < MAX_PLY && ms != []
    ensures -(MATE - ply - 1) <= v <= MATE - ply - 1
    decreases MAX_PLY - ply, 0, |ms|
  {
    var first := Score(keys, j, st, ms[0], depth, ply);
    if |ms| == 1 then first
    else
      var rest := Best(keys, j, st, ms[1..], depth, ply);
      if first > rest then first else rest
  }
}
