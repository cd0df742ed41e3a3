/** Token-bucket rate limiting, with reals for the floating-point levels and seconds for time. */
module RateLimit {

  /** What a bucket holds. */
  datatype Level = Level(tokens: real, last: real)

  function Min(a: real, b: real): real { if a < b then a else b }

  /** What flows in between two times. */
  function Inflow(rate: real, a: real, b: real): real { (b - a) * rate }

  lemma Flows(rate: real, a: real, b: real, c: real)
    ensures Inflow(rate, a, b) + Inflow(rate, b, c) == Inflow(rate, a, c) && Inflow(rate, a, a) == 0.0
  {
  }

  lemma FlowsIn(rate: real, a: real, b: real)
    requires 0.0 <= rate && a <= b
    ensures 0.0 <= Inflow(rate, a, b)
  {
  }

  /** A wider span takes in no less. */
  lemma Widened(rate: real, s: real, a: real, b: real, t: real)
    requires 0.0 <= rate && s <= a <= b <= t
    ensures Inflow(rate, a, b) <= Inflow(rate, s, t)
  {
    hide Inflow;
    Flows(rate, s, a, b);
    Flows(rate, s, b, t);
    FlowsIn(rate, s, a);
    FlowsIn(rate, b, t);
  }

  function Refilled(l: Level, now: real, rate: real, cap: real): real { Min(l.tokens + Inflow(rate, l.last, now), cap) }

  /** One request: the bucket afterwards and whether it was allowed. */
  function Take(l: Level, now: real, rate: real, cap: real): (Level, bool) {
    var tokens := Refilled(l, now, rate, cap);
    if tokens < 1.0 then (Level(tokens, now), false) else (Level(tokens - 1.0, now), true)
  }

  predicate Sane(l: Level, cap: real) { 0.0 <= l.tokens <= cap }

  /** Levels stay between empty and full. */
  lemma TakeSane(l: Level, now: real, rate: real, cap: real)
    requires Sane(l, cap) && l.last <= now && 0.0 <= rate && 0.0 <= cap
    ensures Sane(Take(l, now, rate, cap).0, cap) && Take(l, now, rate, cap).0.last == now
  {
    hide Inflow;
    FlowsIn(rate, l.last, now);
  }

  predicate Ascending(times: seq<real>) { forall i, k :: 0 <= i < k < |times| ==> times[i] <= times[k] }

  function Allowed(l: Level, times: seq<real>, rate: real, cap: real): nat
    decreases |times|
  {
    if times == [] then 0
    else
      var (next, ok) := Take(l, times[0], rate, cap);
      (if ok then 1 else 0) + Allowed(next, times[1..], rate, cap)
  }

  /** From the first request on, no more is allowed than the level then, plus what flows in. */
  lemma {:induction false} AllowedBound(l: Level, times: seq<real>, rate: real, cap: real)
    requires Sane(l, cap) && 0.0 <= rate && 0.0 <= cap && times != [] && Ascending(times) && l.last <= times[0]
    ensures Allowed(l, times, rate, cap) as real <=
            Refilled(l, times[0], rate, cap) + Inflow(rate, times[0], times[|times| - 1])
    decreases |times|
  {
    hide Inflow;
    var now, rest := times[0], times[1..];
    var (next, ok) := Take(l, now, rate, cap);
    TakeSane(l, now, rate, cap);
    if rest != [] {
      var later, end := rest[0], times[|times| - 1];
      AllowedBound(next, rest, rate, cap);
      Flows(rate, now, later, end);
    } else {
      Flows(rate, now, now, now);
    }
  }

  // ---- Whoever keeps the pace gets through ---------------------------------------------------

  /** Each request comes at least one token's worth of time after the one before. */
  ghost predicate Paced(times: seq<real>, rate: real) {
    forall i :: 0 < i < |times| ==> Inflow(rate, times[i - 1], times[i]) >= 1.0
  }

  lemma TakeAtPace(l: Level, now: real, later: real, rate: real, cap: real)
    requires Sane(l, cap) && 1.0 <= cap && Inflow(rate, now, later) >= 1.0
    requires l.last <= now && 0.0 <= rate && Refilled(l, now, rate, cap) >= 1.0
    ensures Take(l, now, rate, cap).1 && Refilled(Take(l, now, rate, cap).0, later, rate, cap) >= 1.0
  {
    hide Inflow;
  }

  /** A client that starts with a token and keeps the pace is never refused. */
  lemma {:induction false} PacedAllAllowed(l: Level, times: seq<real>, rate: real, cap: real)
    requires Sane(l, cap) && 0.0 <= rate && 1.0 <= cap && times != [] && Ascending(times) && Paced(times, rate)
    requires l.last <= times[0] && Refilled(l, times[0], rate, cap) >= 1.0
    ensures Allowed(l, times, rate, cap) == |times|
    decreases |times|
  {
    hide Inflow, Take, Refilled;
    var now, rest := times[0], times[1..];
    TakeSane(l, now, rate, cap);
    if rest != [] {
      assert Inflow(rate, times[0], times[1]) >= 1.0;
      TakeAtPace(l, now, rest[0], rate, cap);
      forall i | 0 < i < |rest| ensures Inflow(rate, rest[i - 1], rest[i]) >= 1.0 {
        assert rest[i - 1] == times[i] && rest[i] == times[i + 1];
      }
      PacedAllAllowed(Take(l, now, rate, cap).0, rest, rate, cap);
    } else {
      OneToken(l, now, rate, cap);
    }
  }

  lemma OneToken(l: Level, now: real, rate: real, cap: real)
    requires Refilled(l, now, rate, cap) >= 1.0
    ensures Take(l, now, rate, cap).1
  {
  }

  /** A full bucket lets a burst of its size through at once. */
  lemma {:induction false} BurstAllowed(l: Level, now: real, n: nat, rate: real, cap: real)
    requires l.last == now && n as real <= l.tokens <= cap
    ensures Allowed(l, seq(n, _ => now), rate, cap) == n
    decreases n
  {
    if n > 0 {
      var times := seq(n, _ => now);
      assert times[1..] == seq(n - 1, _ => now);
      assert Inflow(rate, now, now) == 0.0;
      BurstAllowed(Take(l, now, rate, cap).0, now, n - 1, rate, cap);
    }
  }

  // ---- Many keys ------------------------------------------------------------------------

  /** A request: when a missing bucket is made, and when the bucket then reads the clock. */
  datatype Request = Request(key: string, made: real, now: real)

  type Levels = map<string, Level>

  function LevelOf(levels: Levels, r: Request, cap: real): Level {
    if r.key in levels then levels[r.key] else Level(cap, r.made)
  }

  function Step(levels: Levels, r: Request, rate: real, cap: real): (Levels, bool) {
    var (next, ok) := Take(LevelOf(levels, r, cap), r.now, rate, cap);
    (levels[r.key := next], ok)
  }

  /** Requests in the order in which they read the clock, none before `start`. A bucket is made no later than it
      reads the clock. */
  ghost predicate Timely(rs: seq<Request>, start: real) {
    rs != [] ==> start <= rs[0].now && rs[0].made <= rs[0].now && Timely(rs[1..], rs[0].now)
  }

  ghost predicate AllSane(levels: Levels, cap: real, now: real) {
    forall k :: k in levels ==> Sane(levels[k], cap) && levels[k].last <= now
  }

  function AfterRun(levels: Levels, rs: seq<Request>, rate: real, cap: real): Levels
    decreases |rs|
  {
    if rs == [] then levels else AfterRun(Step(levels, rs[0], rate, cap).0, rs[1..], rate, cap)
  }

  /** How many requests of one key are allowed along a run. */
  function AllowedOf(levels: Levels, rs: seq<Request>, key: string, rate: real, cap: real): nat
    decreases |rs|
  {
    if rs == [] then 0
    else
      var (next, ok) := Step(levels, rs[0], rate, cap);
      (if ok && rs[0].key == key then 1 else 0) + AllowedOf(next, rs[1..], key, rate, cap)
  }

  function TimesOf(rs: seq<Request>, key: string): seq<real> {
    if rs == [] then [] else (if rs[0].key == key then [rs[0].now] else []) + TimesOf(rs[1..], key)
  }

  /** Other keys do not matter: a key's requests meet a bucket of their own. */
  lemma {:induction false} KeysIndependent(levels: Levels, rs: seq<Request>, key: string, rate: real, cap: real)
    requires key in levels
    ensures AllowedOf(levels, rs, key, rate, cap) == Allowed(levels[key], TimesOf(rs, key), rate, cap)
    decreases |rs|
  {
    if rs != [] {
      var (next, ok) := Step(levels, rs[0], rate, cap);
      KeysIndependent(next, rs[1..], key, rate, cap);
      if rs[0].key == key {
        assert TimesOf(rs, key)[1..] == TimesOf(rs[1..], key);
      } else {
        assert TimesOf(rs, key) == TimesOf(rs[1..], key);
      }
    }
  }

  lemma Prepended(first: real, rest: seq<real>, start: real)
    requires start <= first && Ascending(rest) && forall i :: 0 <= i < |rest| ==> first <= rest[i]
    ensures Ascending([first] + rest) && forall i :: 0 <= i < |rest| + 1 ==> start <= ([first] + rest)[i]
  {
  }

  lemma {:induction false} TimesTimely(rs: seq<Request>, start: real, key: string)
    requires Timely(rs, start)
    ensures Ascending(TimesOf(rs, key)) && forall i :: 0 <= i < |TimesOf(rs, key)| ==> start <= TimesOf(rs, key)[i]
  {
    if rs != [] {
      var rest := TimesOf(rs[1..], key);
      TimesTimely(rs[1..], rs[0].now, key);
      if rs[0].key == key {
        Prepended(rs[0].now, rest, start);
      } else {
        assert [] + rest == rest;
      }
    }
  }

  /** Every request reads the clock within [s, t]. */
  ghost predicate Between(rs: seq<Request>, s: real, t: real) {
    forall i :: 0 <= i < |rs| ==> s <= rs[i].now <= t
  }

  lemma {:induction false} TimesBetween(rs: seq<Request>, key: string, s: real, t: real)
    requires Between(rs, s, t)
    ensures forall i :: 0 <= i < |TimesOf(rs, key)| ==> s <= TimesOf(rs, key)[i] <= t
  {
    if rs != [] {
      assert Between(rs[1..], s, t);
      TimesBetween(rs[1..], key, s, t);
    }
  }

  /** A bucket that is there lets through at most cap + Inflow(rate, s, t) of a stretch of requests. */
  lemma HeldBound(levels: Levels, rs: seq<Request>, key: string, rate: real, cap: real, from: real, s: real, t: real)
    requires 0.0 <= rate && 0.0 <= cap && s <= t && Timely(rs, from) && Between(rs, s, t)
    requires key in levels && Sane(levels[key], cap)
    requires TimesOf(rs, key) != [] ==> levels[key].last <= TimesOf(rs, key)[0]
    ensures AllowedOf(levels, rs, key, rate, cap) as real <= cap + Inflow(rate, s, t)
  {
    hide Inflow;
    FlowsIn(rate, s, t);
    var times := TimesOf(rs, key);
    KeysIndependent(levels, rs, key, rate, cap);
    TimesTimely(rs, from, key);
    TimesBetween(rs, key, s, t);
    if times != [] {
      AllowedBound(levels[key], times, rate, cap);
      Widened(rate, s, times[0], times[|times| - 1], t);
    }
  }

  /** The same when the bucket is made on the way, however early it was made. */
  lemma {:induction false} FirstRequest(levels: Levels, rs: seq<Request>, key: string, rate: real, cap: real,
                                        from: real, s: real, t: real)
    requires 0.0 <= rate && 0.0 <= cap && s <= t && key !in levels && rs != []
    requires Timely(rs, from) && Between(rs, s, t)
    ensures AllowedOf(levels, rs, key, rate, cap) as real <= cap + Inflow(rate, s, t)
    decreases |rs|
  {
    hide Inflow;
    var r := rs[0];
    FlowsIn(rate, s, t);
    if r.key == key {
      var full := levels[key := Level(cap, r.made)];
      var next := Take(Level(cap, r.made), r.now, rate, cap).0;
      assert full[key := next] == levels[key := next];
      assert AllowedOf(full, rs, key, rate, cap) == AllowedOf(levels, rs, key, rate, cap);
      HeldBound(full, rs, key, rate, cap, from, s, t);
    } else {
      var next := Step(levels, r, rate, cap).0;
      if |rs| > 1 {
        assert Between(rs[1..], s, t);
        FirstRequest(next, rs[1..], key, rate, cap, r.now, s, t);
      }
    }
  }

  /** When the last request read the clock. */
  function EndOf(rs: seq<Request>, start: real): real {
    if rs == [] then start else EndOf(rs[1..], rs[0].now)
  }

  lemma {:induction false} TimelySplit(a: seq<Request>, b: seq<Request>, start: real)
    requires Timely(a + b, start)
    ensures Timely(a, start) && Timely(b, EndOf(a, start))
  {
    if a == [] {
      assert a + b == b;
    } else {
      assert (a + b)[1..] == a[1..] + b;
      TimelySplit(a[1..], b, a[0].now);
    }
  }

  lemma {:induction false} RunSane(levels: Levels, rs: seq<Request>, rate: real, cap: real, start: real)
    requires 0.0 <= rate && 0.0 <= cap && AllSane(levels, cap, start) && Timely(rs, start)
    ensures AllSane(AfterRun(levels, rs, rate, cap), cap, EndOf(rs, start))
    decreases |rs|
  {
    if rs != [] {
      var r := rs[0];
      TakeSane(LevelOf(levels, r, cap), r.now, rate, cap);
      RunSane(Step(levels, r, rate, cap).0, rs[1..], rate, cap, r.now);
    }
  }

  /** Over any run from an empty limiter and any time span: the requests of one key allowed in [s, t] are
      at most cap + rate * (t - s). A bucket of the span may have been made before it. */
  lemma SpanBound(before: seq<Request>, within: seq<Request>, key: string, rate: real, cap: real, start: real,
      s: real, t: real)
    requires 0.0 <= rate && 0.0 <= cap && s <= t
    requires Timely(before + within, start) && Between(within, s, t)
    ensures AllowedOf(AfterRun(map[], before, rate, cap), within, key, rate, cap) as real <= cap + Inflow(rate, s, t)
  {
    hide Inflow;
    var from := EndOf(before, start);
    TimelySplit(before, within, start);
    RunSane(map[], before, rate, cap, start);
    var levels := AfterRun(map[], before, rate, cap);
    if key in levels {
      TimesTimely(within, from, key);
      HeldBound(levels, within, key, rate, cap, from, s, t);
    } else if within != [] {
      FirstRequest(levels, within, key, rate, cap, from, s, t);
    } else {
      FlowsIn(rate, s, t);
    }
  }

  // ---- In place --------------------------------------------------------------------------

  class Bucket {
    var tokens: real
    var last: real

    function Held(): Level
      reads this
    {
      Level(tokens, last)
    }

    constructor (cap: real, now: real)
      ensures Held() == Level(cap, now)
    {
      tokens, last := cap, now;
    }

    method Allow(now: real, rate: real, cap: real) returns (ok: bool)
      modifies this
      ensures (Held(), ok) == Take(old(Held()), now, rate, cap)
    {
      var elapsed := now - last;
      assert elapsed * rate == Inflow(rate, last, now);
      last := now;
      tokens := tokens + elapsed * rate;
      if tokens > cap { tokens := cap; }
      if tokens < 1.0 { return false; }
      tokens := tokens - 1.0;
      return true;
    }
  }

  class Limiter {
    var buckets: map<string, Bucket>
    const rate: real
    const cap: real

    constructor (perMinute: real, burst: real)
      ensures rate == perMinute / 60.0 && cap == burst && Valid() && Held() == map[]
    {
      rate, cap, buckets := perMinute / 60.0, burst, map[];
    }

    /** No two keys share a bucket. */
    ghost predicate Valid()
      reads this
    {
      forall j, k :: j in buckets && k in buckets && j != k ==> buckets[j] != buckets[k]
    }

    ghost function Held(): Levels
      reads this, buckets.Values
    {
      map k | k in buckets :: buckets[k].Held()
    }

    method Allow(key: string, made: real, now: real) returns (ok: bool)
      requires Valid()
      modifies this, buckets.Values
      ensures Valid() && fresh(buckets.Values - old(buckets.Values))
      ensures (Held(), ok) == Step(old(Held()), Request(key, made, now), rate, cap)
    {
      ghost var before := Held();
      if key !in buckets {
        var b := new Bucket(cap, made);
        buckets := buckets[key := b];
      }
      ok := buckets[key].Allow(now, rate, cap);
      assert Held() == Step(before, Request(key, made, now), rate, cap).0;
    }
  }
}
