/** Signed requests and the cache that keeps any signature from being accepted twice. */
module Replay {
  import opened Types
  import opened Decimals

  /** Times are nanoseconds. */
  const SECOND := 1_000_000_000
  const MAX_AGE := 60 * SECOND
  const RETENTION := 3 * MAX_AGE

  datatype Claims = Claims(method_: string, path: string, ts: int, bodyHex: string)

  function Unix(ts: int): int { ts / SECOND }

  // ---- What a signature covers -------------------------------------------------------------

  function Number(n: int): string { if n >= 0 then Decimal(n) else "-" + Decimal(-n) }

  /** The signed text: method, path, whole seconds and body digest, joined by colons. */
  function ClaimBytes(c: Claims): string {
    c.method_ + ":" + c.path + ":" + Number(Unix(c.ts)) + ":" + c.bodyHex
  }

  /** A digest in hexadecimal: 64 characters, none a colon. */
  predicate IsDigest(s: string) { |s| == 64 && ':' !in s }

  lemma NumberSign(n: int)
    ensures Number(n) != "" && (Number(n)[0] == '-' <==> n < 0)
  {
    DecimalDigits(if n >= 0 then n else -n);
    if n >= 0 { assert Decimal(n)[0] in Decimal(n); }
  }

  lemma NumberInjective(m: int, n: int)
    requires Number(m) == Number(n)
    ensures m == n
  {
    NumberSign(m);
    NumberSign(n);
    if m >= 0 {
      DecimalInjective(m, n);
    } else {
      assert Number(m)[1..] == Decimal(-m) && Number(n)[1..] == Decimal(-n);
      DecimalInjective(-m, -n);
    }
  }

  /** Where the last colon is. */
  lemma LastColon(a: string, x: string)
    requires ':' !in x
    ensures var s := a + ":" + x;
            s[|a|] == ':' && (forall k :: |a| < k < |s| ==> s[k] != ':') && s[..|a|] == a && s[|a| + 1..] == x
  {
    var s := a + ":" + x;
    forall k | |a| < k < |s| ensures s[k] != ':' { assert s[k] == x[k - |a| - 1]; }
  }

  /** Two equal texts agree before and after their last colon. */
  lemma LastField(a: string, x: string, b: string, y: string)
    requires a + ":" + x == b + ":" + y && ':' !in x && ':' !in y
    ensures a == b && x == y
  {
    LastColon(a, x);
    LastColon(b, y);
    assert |a| == |b|;
  }

  /** The signed text binds the timestamp's second and the body, whatever method and path contain. */
  lemma TextBindsTime(c: Claims, d: Claims)
    requires ClaimBytes(c) == ClaimBytes(d) && IsDigest(c.bodyHex) && IsDigest(d.bodyHex)
    ensures Unix(c.ts) == Unix(d.ts) && c.bodyHex == d.bodyHex
  {
    var a, b := c.method_ + ":" + c.path, d.method_ + ":" + d.path;
    var m, n := Unix(c.ts), Unix(d.ts);
    LastField(a + ":" + Number(m), c.bodyHex, b + ":" + Number(n), d.bodyHex);
    NumberNoColon(m);
    NumberNoColon(n);
    LastField(a, Number(m), b, Number(n));
    NumberInjective(m, n);
  }

  lemma NumberNoColon(n: int)
    ensures ':' !in Number(n)
  {
    DecimalDigits(if n >= 0 then n else -n);
  }

  // ---- One request -------------------------------------------------------------------------

  datatype Verdict = Accepted | OutOfWindow | BadSignature | Replayed

  type Seen = map<string, int>

  function Purged(seen: Seen, now: int): Seen { map k | k in seen && now - seen[k] <= RETENTION :: seen[k] }

  predicate InWindow(now: int, ts: int) { -MAX_AGE <= now - ts <= MAX_AGE }

  /** The cache and the verdict after a request whose signature is `sig`. */
  function Judge(seen: Seen, sig: string, ts: int, genuine: bool, now: int): (Seen, Verdict) {
    if !InWindow(now, ts) then (seen, OutOfWindow)
    else if !genuine then (seen, BadSignature)
    else
      var kept := Purged(seen, now);
      if sig in kept then (kept, Replayed) else (kept[sig := now], Accepted)
  }

  class Verifier {
    var seen: Seen

    constructor ()
      ensures seen == map[]
    {
      seen := map[];
    }

    /** Drop expired entries one by one. */
    method Purge(now: int)
      modifies this
      ensures seen == Purged(old(seen), now)
    {
      var keys := seen.Keys;
      ghost var before := seen;
      while keys != {}
        invariant keys <= before.Keys
        invariant seen == map k | k in before && (k in keys || now - before[k] <= RETENTION) :: before[k]
        decreases |keys|
      {
        var k :| k in keys;
        if now - seen[k] > RETENTION {
          seen := seen - {k};
        }
        keys := keys - {k};
      }
    }

    method Verify(sig: string, ts: int, genuine: bool, now: int) returns (v: Verdict)
      modifies this
      ensures (seen, v) == Judge(old(seen), sig, ts, genuine, now)
    {
      var delta := now - ts;
      if delta > MAX_AGE || delta < -MAX_AGE { return OutOfWindow; }
      if !genuine { return BadSignature; }
      Purge(now);
      if sig in seen { return Replayed; }
      seen := seen[sig := now];
      return Accepted;
    }
  }

  // ---- Whole runs ----------------------------------------------------------------------------

  /** A request: its key, signature and claims, when it read the clock, and when it got the lock. */
  datatype Request = Request(pub: string, sig: string, claims: Claims, now: int, locked: int)

  /** Whether a signature is one of a key over a text. */
  type Scheme = (string, string, string) -> bool

  /** A signature is good for one text only. */
  ghost predicate OneText(verifies: Scheme) {
    forall pub, pub', text, text', sig :: verifies(pub, text, sig) && verifies(pub', text', sig) ==> text == text'
  }

  function Genuine(verifies: Scheme, r: Request): bool { verifies(r.pub, ClaimBytes(r.claims), r.sig) }

  function Handle(verifies: Scheme, seen: Seen, r: Request): (Seen, Verdict) {
    Judge(seen, r.sig, r.claims.ts, Genuine(verifies, r), r.now)
  }

  function CacheAfter(verifies: Scheme, seen: Seen, rs: seq<Request>): Seen
    decreases |rs|
  {
    if rs == [] then seen else CacheAfter(verifies, Handle(verifies, seen, rs[0]).0, rs[1..])
  }

  /** Requests in the order in which they get the lock; each read the clock at most `delay` before. */
  ghost predicate Orderly(rs: seq<Request>, delay: int) {
    && (forall i :: 0 <= i < |rs| ==> rs[i].now <= rs[i].locked <= rs[i].now + delay && IsDigest(rs[i].claims.bodyHex))
    && (forall i, k :: 0 <= i < k < |rs| ==> rs[i].locked <= rs[k].locked)
  }

  /** The signature is remembered, with a time at which one with that second could be accepted. */
  predicate Remembers(seen: Seen, sig: string, second: int) {
    sig in seen && seen[sig] >= second * SECOND - MAX_AGE
  }

  /** The longest delay for which the cache is certain to remember long enough. */
  const SAFE_DELAY := RETENTION - 2 * MAX_AGE - SECOND + 1

  lemma AcceptedRemembers(verifies: Scheme, seen: Seen, r: Request)
    requires Handle(verifies, seen, r).1 == Accepted
    ensures Remembers(Handle(verifies, seen, r).0, r.sig, Unix(r.claims.ts)) && Genuine(verifies, r)
  {
  }

  /** While the lock is taken early enough for the signature still to be acceptable, it is not purged. */
  lemma StillRemembers(verifies: Scheme, seen: Seen, r: Request, sig: string, second: int, last: int)
    requires Remembers(seen, sig, second)
    requires r.now <= r.locked <= last && last <= second * SECOND + RETENTION - MAX_AGE
    ensures Remembers(Handle(verifies, seen, r).0, sig, second)
  {
  }

  lemma {:induction false} KeepsRemembering(verifies: Scheme, seen: Seen, rs: seq<Request>, sig: string, second: int,
      last: int)
    requires Remembers(seen, sig, second) && last <= second * SECOND + RETENTION - MAX_AGE
    requires forall i :: 0 <= i < |rs| ==> rs[i].now <= rs[i].locked <= last
    ensures Remembers(CacheAfter(verifies, seen, rs), sig, second)
    decreases |rs|
  {
    if rs != [] {
      StillRemembers(verifies, seen, rs[0], sig, second, last);
      KeepsRemembering(verifies, Handle(verifies, seen, rs[0]).0, rs[1..], sig, second, last);
    }
  }

  /** However long the run and however often the cache is purged: of two requests with the same
      signature at most one is accepted, as long as no request waits longer than 59 seconds (and a nanosecond) between
      reading the clock and taking the lock. */
  lemma NeverTwice(verifies: Scheme, seen: Seen, first: Request, between: seq<Request>, second: Request)
    requires OneText(verifies) && first.sig == second.sig
    requires Orderly([first] + between + [second], SAFE_DELAY)
    requires Handle(verifies, seen, first).1 == Accepted
    ensures Handle(verifies, CacheAfter(verifies, Handle(verifies, seen, first).0, between), second).1 != Accepted
  {
    var all := [first] + between + [second];
    var u := Unix(first.claims.ts);
    AcceptedRemembers(verifies, seen, first);
    assert all[0] == first && all[|all| - 1] == second;
    var held := CacheAfter(verifies, Handle(verifies, seen, first).0, between);
    if Genuine(verifies, second) && InWindow(second.now, second.claims.ts) {
      TextBindsTime(first.claims, second.claims);
      assert second.locked <= u * SECOND + RETENTION - MAX_AGE;
      forall i | 0 <= i < |between| ensures between[i].now <= between[i].locked <= second.locked {
        assert all[i + 1] == between[i];
      }
      KeepsRemembering(verifies, Handle(verifies, seen, first).0, between, first.sig, u, second.locked);
      StillRemembers(verifies, held, second, first.sig, u, second.locked);
    }
  }

  /** The delay is exact: one nanosecond more, and a signature can be accepted twice. */
  lemma LongerDelayFails(verifies: Scheme, pub: string, sig: string, other: string, c: Claims, d: Claims)
    requires c.ts == 0 && IsDigest(c.bodyHex) && verifies(pub, ClaimBytes(c), sig)
    requires d.ts == RETENTION - MAX_AGE + 1 && IsDigest(d.bodyHex) && verifies(pub, ClaimBytes(d), other) &&
             sig != other
    ensures var first := Request(pub, sig, c, -MAX_AGE, -MAX_AGE);
            var purger := Request(pub, other, d, RETENTION - MAX_AGE + 1, RETENTION - MAX_AGE + 1);
            var again := Request(pub, sig, c.(ts := SECOND - 1), SECOND - 1 + MAX_AGE, RETENTION - MAX_AGE + 1);
            && Orderly([first, purger, again], SAFE_DELAY + 1)
            && Handle(verifies, map[], first).1 == Accepted
            && Handle(verifies, CacheAfter(verifies, Handle(verifies, map[], first).0, [purger]), again).1 == Accepted
  {
    var first := Request(pub, sig, c, -MAX_AGE, -MAX_AGE);
    var purger := Request(pub, other, d, RETENTION - MAX_AGE + 1, RETENTION - MAX_AGE + 1);
    assert Handle(verifies, map[], first).0 == map[sig := -MAX_AGE];
    var after := Handle(verifies, map[sig := -MAX_AGE], purger).0;
    assert sig !in after;
    assert CacheAfter(verifies, map[sig := -MAX_AGE], [purger]) == after;
    assert ClaimBytes(c.(ts := SECOND - 1)) == ClaimBytes(c);
  }

  // ---- Nobody else is turned away ------------------------------------------------------------------

  /** The cache holds only signatures of requests that came before. */
  lemma {:induction false} RememberedCame(verifies: Scheme, seen: Seen, rs: seq<Request>, sig: string)
    requires sig in CacheAfter(verifies, seen, rs)
    ensures sig in seen || exists i :: 0 <= i < |rs| && rs[i].sig == sig
    decreases |rs|
  {
    if rs != [] {
      var next := Handle(verifies, seen, rs[0]).0;
      RememberedCame(verifies, next, rs[1..], sig);
      if sig !in next {
        var i :| 0 <= i < |rs[1..]| && rs[1..][i].sig == sig;
        assert rs[i + 1].sig == sig;
      } else if sig !in seen {
        assert rs[0].sig == sig;
      }
    }
  }

  /** A genuine request less than a minute off, with a signature that has not been presented before, is accepted,
      whatever has happened until then. */
  lemma FirstTimeAccepted(verifies: Scheme, before: seq<Request>, r: Request)
    requires Genuine(verifies, r) && Abs(r.now - r.claims.ts) <= 60 * SECOND
    requires forall i :: 0 <= i < |before| ==> before[i].sig != r.sig
    ensures Handle(verifies, CacheAfter(verifies, map[], before), r).1 == Accepted
  {
    var seen := CacheAfter(verifies, map[], before);
    if r.sig in seen { RememberedCame(verifies, map[], before, r.sig); }
  }

  /** A forged signature, or a time more than a minute off, is never accepted. */
  lemma OthersRefused(verifies: Scheme, seen: Seen, r: Request)
    requires !Genuine(verifies, r) || Abs(r.now - r.claims.ts) > 60 * SECOND
    ensures Handle(verifies, seen, r).1 != Accepted
  {
  }
}
