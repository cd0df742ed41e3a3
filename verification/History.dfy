/** The history heuristic: scores that approach a limit but never pass it. */
module History {
  import opened Types
  import opened Boards

  const LIMIT := 16384

  /** Division that truncates toward zero. */
  function TruncDiv(a: int, d: int): int
    requires d > 0
  {
    if a >= 0 then a / d else -(-a / d)
  }

  function Gravity(entry: int, bonus: int): int {
    entry + bonus - TruncDiv(entry * Abs(bonus), LIMIT)
  }

  lemma {:induction false} Nonneg(x: nat, y: nat)
    ensures 0 <= x * y
  {
    if x > 0 {
      Nonneg(x - 1, y);
      assert x * y == (x - 1) * y + y;
    }
  }

  lemma ProductBounds(e: int, b: int)
    requires 0 <= e <= LIMIT && 0 <= b <= LIMIT
    ensures LIMIT * (e + b - LIMIT) <= e * b <= LIMIT * e && 0 <= e * b
  {
    var e1, b1 := LIMIT - e, LIMIT - b;
    Nonneg(e, b);
    Nonneg(e, b1);
    Nonneg(e1, b1);
    assert e * b1 == LIMIT * e - e * b;
    assert e1 * b1 == LIMIT * b1 - e * b1;
  }

  lemma Share(x: int, e: int, b: int)
    requires LIMIT * (e + b - LIMIT) <= x <= LIMIT * e && 0 <= x
    ensures e + b - LIMIT <= x / LIMIT <= e
  {
  }

  /** Whatever is added, an entry within the limits stays within them, truncation included; and the
      product it forms fits 32 bits. */
  lemma GravityBounded(entry: int, bonus: int)
    requires Abs(entry) <= LIMIT && Abs(bonus) <= LIMIT
    ensures Abs(Gravity(entry, bonus)) <= LIMIT
    ensures Abs(entry * Abs(bonus)) < 0x8000_0000
  {
    var e: int, b: int := Abs(entry), Abs(bonus);
    ProductBounds(e, b);
    Share(e * b, e, b);
    assert entry * b == if entry < 0 then -(e * b) else e * b;
  }

  /** A bonus raises an entry that is not at the limit and a penalty lowers it, the less the nearer the limit is;
      from zero the entry takes the bonus as it is. */
  lemma GravityPulls(entry: int, bonus: int)
    requires Abs(entry) <= LIMIT && Abs(bonus) <= LIMIT
    ensures bonus > 0 && entry < LIMIT ==> entry < Gravity(entry, bonus)
    ensures bonus < 0 && entry > -LIMIT ==> Gravity(entry, bonus) < entry
    ensures entry >= 0 && bonus >= 0 ==> Gravity(entry, bonus) <= entry + bonus
    ensures Gravity(0, bonus) == bonus && Gravity(entry, 0) == entry
  {
    var e: int, b: int := Abs(entry), Abs(bonus);
    ProductBounds(e, b);
    assert entry * b == if entry < 0 then -(e * b) else e * b;
    LessThanAll(e, b);
    assert e * 0 == 0 && 0 * b == 0;
  }

  /** A share of b, of an entry below the limit, is less than b. */
  lemma LessThanAll(e: int, b: int)
    requires 0 <= e <= LIMIT && 0 <= b <= LIMIT
    ensures 0 <= e * b / LIMIT <= b && (e < LIMIT && 0 < b ==> e * b / LIMIT < b)
  {
    Nonneg(e, b);
    Nonneg(LIMIT - e, b);
    assert (LIMIT - e) * b == LIMIT * b - e * b;
    if e < LIMIT && 0 < b {
      Nonneg(LIMIT - e - 1, b);
      assert (LIMIT - e - 1) * b == LIMIT * b - e * b - b;
    }
  }

  /** The bonus of a cutoff at a depth that the search can reach. */
  lemma DepthBonus(depth: int)
    requires 0 <= depth <= 126
    ensures 0 <= depth * depth <= LIMIT
  {
    var x := 126 - depth;
    assert depth * depth == 126 * depth - x * depth && 0 <= x * depth && 0 <= depth * depth;
  }

  /** An entry after a list of moves has been credited, each time it occurs in it. */
  function Credited(entry: int, from: Square, to: Square, ms: seq<Move>, bonus: int): int {
    if ms == [] then entry
    else
      var last, before := ms[|ms| - 1], Credited(entry, from, to, ms[..|ms| - 1], bonus);
      if last.from == from && last.to == to then Gravity(before, bonus) else before
  }

  class Table {
    const entries: array3<int>

    ghost predicate Shape() {
      entries.Length0 == 2 && entries.Length1 == 64 && entries.Length2 == 64
    }

    /** Every entry is within the limits. */
    ghost predicate Valid()
      reads entries
    {
      Shape() && forall c: Color, from: Square, to: Square :: Abs(entries[Ix(c), from, to]) <= LIMIT
    }

    constructor ()
      ensures Valid() && fresh(entries)
    {
      entries := new int[2, 64, 64]((_, _, _) => 0);
    }

    method Update(c: Color, m: Move, bonus: int)
      requires Valid() && Abs(bonus) <= LIMIT
      modifies entries
      ensures Valid()
      ensures entries[Ix(c), m.from, m.to] == Gravity(old(entries[Ix(c), m.from, m.to]), bonus)
      ensures forall d: Color, from: Square, to: Square :: d != c || from != m.from || to != m.to ==>
                entries[Ix(d), from, to] == old(entries[Ix(d), from, to])
    {
      hide Gravity;
      GravityBounded(entries[Ix(c), m.from, m.to], bonus);
      entries[Ix(c), m.from, m.to] := Gravity(entries[Ix(c), m.from, m.to], bonus);
    }

    /** A quiet move caused a cutoff. */
    method Record(c: Color, m: Move, depth: int)
      requires Valid() && 0 <= depth <= 126
      modifies entries
      ensures Valid()
      ensures entries[Ix(c), m.from, m.to] == Gravity(old(entries[Ix(c), m.from, m.to]), depth * depth)
      ensures forall d: Color, from: Square, to: Square :: d != c || from != m.from || to != m.to ==>
                entries[Ix(d), from, to] == old(entries[Ix(d), from, to])
    {
      hide Gravity;
      DepthBonus(depth);
      Update(c, m, depth * depth);
    }

    /** The quiet moves tried before it did not. */
    method Penalize(c: Color, quiets: seq<Move>, depth: int)
      requires Valid() && 0 <= depth <= 126
      modifies entries
      ensures Valid()
      ensures forall d: Color, from: Square, to: Square :: entries[Ix(d), from, to] ==
                if d == c then Credited(old(entries[Ix(d), from, to]), from, to, quiets, -(depth * depth))
                else old(entries[Ix(d), from, to])
    {
      hide Gravity;
      DepthBonus(depth);
      var pen := -(depth * depth);
      for i := 0 to |quiets|
        invariant Valid()
        invariant forall d: Color, from: Square, to: Square :: entries[Ix(d), from, to] ==
                    if d == c then Credited(old(entries[Ix(d), from, to]), from, to, quiets[..i], pen)
                    else old(entries[Ix(d), from, to])
      {
        assert quiets[..i + 1][..i] == quiets[..i];
        Update(c, quiets[i], pen);
      }
      assert quiets[..|quiets|] == quiets;
    }
  }
}
