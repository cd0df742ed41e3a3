/** Ordering moves by score: an in-place insertion sort, best first, equal scores in list order. */
module MoveOrder {
  import opened Types

  datatype Scored = Scored(move: Move, score: int)

  /** Put x behind the last element that scores at least as much. */
  function Insert(s: seq<Scored>, x: Scored): seq<Scored> {
    if s == [] || s[|s| - 1].score >= x.score then s + [x]
    else Insert(s[..|s| - 1], x) + [s[|s| - 1]]
  }

  function Ordered(s: seq<Scored>): seq<Scored> {
    if s == [] then [] else Insert(Ordered(s[..|s| - 1]), s[|s| - 1])
  }

  ghost predicate Descending(s: seq<Scored>) {
    forall i, k :: 0 <= i < k < |s| ==> s[i].score >= s[k].score
  }

  function WithScore(s: seq<Scored>, n: int): seq<Scored> {
    if s == [] then [] else WithScore(s[..|s| - 1], n) + if s[|s| - 1].score == n then [s[|s| - 1]] else []
  }

  lemma {:induction false} InsertKeeps(s: seq<Scored>, x: Scored)
    ensures multiset(Insert(s, x)) == multiset(s) + multiset{x}
  {
    if s != [] && s[|s| - 1].score < x.score {
      InsertKeeps(s[..|s| - 1], x);
      assert s == s[..|s| - 1] + [s[|s| - 1]];
    }
  }

  lemma {:induction false} InsertDescends(s: seq<Scored>, x: Scored)
    requires Descending(s)
    ensures Descending(Insert(s, x))
  {
    if s != [] && s[|s| - 1].score < x.score {
      var front, last := s[..|s| - 1], s[|s| - 1];
      InsertDescends(front, x);
      InsertKeeps(front, x);
      var r := Insert(front, x);
      forall i | 0 <= i < |r| ensures r[i].score >= last.score {
        assert r[i] in multiset(r);
        assert r[i] in front || r[i] == x;
      }
    }
  }

  lemma {:induction false} InsertStable(s: seq<Scored>, x: Scored, n: int)
    ensures WithScore(Insert(s, x), n) == WithScore(s, n) + if x.score == n then [x] else []
  {
    if s != [] && s[|s| - 1].score < x.score {
      var front, last := s[..|s| - 1], s[|s| - 1];
      InsertStable(front, x, n);
      assert Insert(s, x)[..|Insert(s, x)| - 1] == Insert(front, x);
    } else {
      assert (s + [x])[..|s|] == s;
    }
  }

  lemma {:induction false} OrderedKeeps(s: seq<Scored>)
    ensures multiset(Ordered(s)) == multiset(s)
  {
    hide Insert;
    if s != [] {
      OrderedKeeps(s[..|s| - 1]);
      InsertKeeps(Ordered(s[..|s| - 1]), s[|s| - 1]);
      assert s == s[..|s| - 1] + [s[|s| - 1]];
    }
  }

  lemma {:induction false} OrderedDescends(s: seq<Scored>)
    ensures Descending(Ordered(s))
  {
    hide Insert;
    if s != [] {
      OrderedDescends(s[..|s| - 1]);
      InsertDescends(Ordered(s[..|s| - 1]), s[|s| - 1]);
    }
  }

  lemma {:induction false} OrderedStable(s: seq<Scored>, n: int)
    ensures WithScore(Ordered(s), n) == WithScore(s, n)
  {
    hide Insert;
    if s != [] {
      OrderedStable(s[..|s| - 1], n);
      InsertStable(Ordered(s[..|s| - 1]), s[|s| - 1], n);
    }
  }

  /** Sorting permutes, puts higher scores first, and keeps moves of equal score in their order. */
  lemma OrderedMeaning(s: seq<Scored>)
    ensures multiset(Ordered(s)) == multiset(s) && Descending(Ordered(s))
    ensures forall n :: WithScore(Ordered(s), n) == WithScore(s, n)
  {
    hide Ordered, WithScore, Descending;
    OrderedKeeps(s);
    OrderedDescends(s);
    forall n ensures WithScore(Ordered(s), n) == WithScore(s, n) { OrderedStable(s, n); }
  }

  lemma SinkStep(s: seq<Scored>, x: Scored, j: nat)
    requires j < |s| && s[j].score < x.score
    ensures Insert(s[..j + 1], x) + s[j + 1..] == Insert(s[..j], x) + s[j..]
  {
    assert s[..j + 1][..j] == s[..j];
    assert s[j..] == [s[j]] + s[j + 1..];
  }

  lemma SinkStop(s: seq<Scored>, x: Scored, j: int)
    requires -1 <= j < |s| && (j >= 0 ==> s[j].score >= x.score)
    ensures Insert(s[..j + 1], x) == s[..j + 1] + [x]
  {
  }

  /** One pass: the element at i sinks into the ordered prefix before it. */
  method Sink(a: array<Scored>, i: nat)
    requires i < a.Length
    modifies a
    ensures a[..i + 1] == Insert(old(a[..i]), old(a[i]))
    ensures forall k :: i < k < a.Length ==> a[k] == old(a[k])
  {
    hide Insert;
    ghost var before := a[..i];
    var x := a[i];
    var j := i - 1;
    assert before[..i] == before && before[i..] == [];
    while j >= 0 && a[j].score < x.score
      invariant -1 <= j < i
      invariant forall k :: 0 <= k <= j ==> a[k] == before[k]
      invariant forall k :: j + 2 <= k <= i ==> a[k] == before[k - 1]
      invariant forall k :: i < k < a.Length ==> a[k] == old(a[k])
      invariant Insert(before, x) == Insert(before[..j + 1], x) + before[j + 1..]
    {
      SinkStep(before, x, j);
      a[j + 1] := a[j];
      j := j - 1;
    }
    a[j + 1] := x;
    SinkStop(before, x, j);
    Assembled(a[..i + 1], before, x, j);
  }

  lemma Assembled(s: seq<Scored>, before: seq<Scored>, x: Scored, j: int)
    requires -1 <= j < |before| && |s| == |before| + 1 && s[j + 1] == x
    requires forall k :: 0 <= k <= j ==> s[k] == before[k]
    requires forall k :: j + 2 <= k < |s| ==> s[k] == before[k - 1]
    ensures s == before[..j + 1] + [x] + before[j + 1..]
  {
  }

  lemma OrderedStep(s: seq<Scored>, i: nat)
    requires i < |s|
    ensures Ordered(s[..i + 1]) == Insert(Ordered(s[..i]), s[i])
    ensures i == 0 ==> Ordered(s[..1]) == s[..1]
  {
    assert s[..i + 1][..i] == s[..i];
  }

  method Sort(a: array<Scored>)
    modifies a
    ensures a[..] == Ordered(old(a[..]))
  {
    ghost var was := a[..];
    if a.Length == 0 { return; }
    hide Insert, Ordered;
    OrderedStep(was, 0);
    var i := 1;
    while i < a.Length
      invariant 1 <= i <= a.Length
      invariant a[..i] == Ordered(was[..i])
      invariant forall k :: i <= k < a.Length ==> a[k] == was[k]
    {
      OrderedStep(was, i);
      Sink(a, i);
      i := i + 1;
    }
    assert a[..] == a[..i] && was[..i] == was;
  }

  // ---- Back to moves ------------------------------------------------------------------

  function MovesOf(s: seq<Scored>): seq<Move> {
    if s == [] then [] else MovesOf(s[..|s| - 1]) + [s[|s| - 1].move]
  }

  lemma {:induction false} MovesAt(s: seq<Scored>)
    ensures |MovesOf(s)| == |s| && forall i :: 0 <= i < |s| ==> MovesOf(s)[i] == s[i].move
  {
    if s != [] { MovesAt(s[..|s| - 1]); }
  }

  lemma {:induction false} InsertMoves(s: seq<Scored>, x: Scored)
    ensures multiset(MovesOf(Insert(s, x))) == multiset(MovesOf(s)) + multiset{x.move}
  {
    if s != [] && s[|s| - 1].score < x.score {
      var front, last := s[..|s| - 1], s[|s| - 1];
      InsertMoves(front, x);
      var r := Insert(front, x);
      assert (r + [last])[..|r|] == r;
    } else {
      assert (s + [x])[..|s|] == s;
    }
  }

  lemma {:induction false} OrderedMoves(s: seq<Scored>)
    ensures multiset(MovesOf(Ordered(s))) == multiset(MovesOf(s))
  {
    if s != [] {
      OrderedMoves(s[..|s| - 1]);
      InsertMoves(Ordered(s[..|s| - 1]), s[|s| - 1]);
    }
  }

  function Paired(ms: seq<Move>, scores: seq<int>): seq<Scored>
    requires |ms| == |scores|
  {
    seq(|ms|, i requires 0 <= i < |ms| && |ms| == |scores| => Scored(ms[i], scores[i]))
  }

  /** The moves again, best score first. */
  method OrderBy(ms: seq<Move>, scores: seq<int>) returns (r: seq<Move>)
    requires |ms| == |scores|
    ensures multiset(r) == multiset(ms)
    ensures r == MovesOf(Ordered(Paired(ms, scores)))
  {
    hide Insert, Ordered, MovesOf;
    var a := new Scored[|ms|](i requires 0 <= i < |ms| && |ms| == |scores| => Scored(ms[i], scores[i]));
    assert a[..] == Paired(ms, scores);
    PairedMoves(ms, scores);
    Sort(a);
    r := MovesIn(a);
  }

  lemma PairedMoves(ms: seq<Move>, scores: seq<int>)
    requires |ms| == |scores|
    ensures multiset(MovesOf(Ordered(Paired(ms, scores)))) == multiset(ms)
  {
    hide Ordered, MovesOf;
    var s := Paired(ms, scores);
    MovesAt(s);
    assert MovesOf(s) == ms;
    OrderedMoves(s);
  }

  method MovesIn(a: array<Scored>) returns (r: seq<Move>)
    ensures r == MovesOf(a[..])
  {
    r := [];
    for i := 0 to a.Length
      invariant r == MovesOf(a[..i])
    {
      assert a[..i + 1][..i] == a[..i];
      r := r + [a[i].move];
    }
    assert a[..a.Length] == a[..];
  }
}
