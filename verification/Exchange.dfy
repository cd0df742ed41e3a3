/** Static exchange evaluation: what a sequence of captures on one square is worth. */
module Exchange {

  function Max(a: int, b: int): int { if a > b then a else b }

  /** The best the side to recapture can make of the victims to come, each side free to stop. */
  function BestReply(victims: seq<int>): int {
    if victims == [] then 0 else Max(0, victims[0] - BestReply(victims[1..]))
  }

  /** The gain list folded back: the full swap, without stopping early. */
  function FullSwap(gain: int, victims: seq<int>): int
    decreases |victims|
  {
    if victims == [] then gain else -Max(-gain, FullSwap(victims[0] - gain, victims[1..]))
  }

  /** The same, abandoned as soon as both sides' best case is negative. */
  function EarlySwap(gain: int, victims: seq<int>): int
    decreases |victims|
  {
    if victims == [] then gain
    else
      var next := victims[0] - gain;
      if Max(-gain, next) < 0 then gain else -Max(-gain, EarlySwap(next, victims[1..]))
  }

  /** The full swap is the first gain less the opponent's best reply. */
  lemma {:induction false} FullSwapIsBestPlay(gain: int, victims: seq<int>)
    ensures FullSwap(gain, victims) == gain - BestReply(victims)
    decreases |victims|
  {
    if victims != [] {
      FullSwapIsBestPlay(victims[0] - gain, victims[1..]);
    }
  }

  lemma BestReplyNonNegative(victims: seq<int>)
    ensures BestReply(victims) >= 0
  {
  }

  /** Stopping early never changes the sign, and never understates the size: for all gains and all
      victims the two values are both zero, or on the same side with the early one no nearer to zero. */
  lemma {:induction false} EarlyStopKeepsSign(gain: int, victims: seq<int>)
    ensures var full, early := FullSwap(gain, victims), EarlySwap(gain, victims);
            || (full == 0 && early == 0)
            || 0 < full <= early
            || early <= full < 0
    decreases |victims|
  {
    if victims != [] {
      var next := victims[0] - gain;
      EarlyStopKeepsSign(next, victims[1..]);
      FullSwapIsBestPlay(next, victims[1..]);
      BestReplyNonNegative(victims[1..]);
    }
  }

  /** How many victims the early stop looks at: those before the first at which both sides' best case is
      negative. */
  function StopAt(gain: int, victims: seq<int>): (n: nat)
    ensures n <= |victims|
    decreases |victims|
  {
    if victims == [] || Max(-gain, victims[0] - gain) < 0 then 0
    else 1 + StopAt(victims[0] - gain, victims[1..])
  }

  /** Stopping early is the full swap of the victims looked at. */
  lemma {:induction false} EarlyIsTruncated(gain: int, victims: seq<int>)
    ensures EarlySwap(gain, victims) == FullSwap(gain, victims[..StopAt(gain, victims)])
    decreases |victims|
  {
    if victims != [] && Max(-gain, victims[0] - gain) >= 0 {
      var next, rest := victims[0] - gain, victims[1..];
      EarlyIsTruncated(next, rest);
      assert victims[..1 + StopAt(next, rest)][1..] == rest[..StopAt(next, rest)];
    }
  }

  /** The value is kept if and only if the victims that were not looked at make no difference to the
      best reply. */
  lemma EarlyStopExactly(gain: int, victims: seq<int>)
    ensures EarlySwap(gain, victims) == FullSwap(gain, victims) <==>
            BestReply(victims[..StopAt(gain, victims)]) == BestReply(victims)
  {
    EarlyIsTruncated(gain, victims);
    FullSwapIsBestPlay(gain, victims);
    FullSwapIsBestPlay(gain, victims[..StopAt(gain, victims)]);
  }

  /** When the guard holds at once, the value is kept if and only if the recapture would not pay anyway. */
  lemma StopAtOnceExactly(gain: int, victims: seq<int>)
    requires victims != [] && Max(-gain, victims[0] - gain) < 0
    ensures EarlySwap(gain, victims) == FullSwap(gain, victims) <==> victims[0] <= BestReply(victims[1..])
  {
    FullSwapIsBestPlay(gain, victims);
  }

  /** Fold a value down through the gains below it. */
  ghost function FoldBack(gains: seq<int>, x: int): int {
    if gains == [] then x
    else FoldBack(gains[..|gains| - 1], -Max(-gains[|gains| - 1], x))
  }
}
