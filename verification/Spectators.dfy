/** Spectator admission: seats, a waiting list, and a limit on how often an account may try. */
module Spectators {

  /** Times are nanoseconds. */
  const SECOND := 1_000_000_000
  const MINUTE := 60 * SECOND
  const HOUR := 3600 * SECOND
  const DEFAULT_CAP := 50
  const HARD_CEILING := 200
  const WAITLIST_DEPTH := 50
  const PER_MINUTE := 6
  const PER_HOUR := 60

  // ---- Join times ----------------------------------------------------------------------

  /** The times less than `span` before now, in order. */
  function Recent(ts: seq<int>, now: int, span: int): (r: seq<int>)
    ensures |r| <= |ts|
  {
    if ts == [] then []
    else Recent(ts[..|ts| - 1], now, span) + if now - ts[|ts| - 1] < span then [ts[|ts| - 1]] else []
  }

  /** How many times fall in the half-open span starting at `from`. */
  function Within(ts: seq<int>, from: int, span: int): nat {
    if ts == [] then 0
    else Within(ts[..|ts| - 1], from, span) + if from <= ts[|ts| - 1] < from + span then 1 else 0
  }

  /** No span of that length holds more than `most` of the times. */
  ghost predicate Sparse(ts: seq<int>, span: int, most: nat) {
    forall from: int :: Within(ts, from, span) <= most
  }

  /** A span that reaches now holds only recent times. */
  lemma {:induction false} WithinRecent(ts: seq<int>, now: int, span: int, from: int)
    requires from <= now < from + span
    ensures Within(ts, from, span) <= |Recent(ts, now, span)|
  {
    if ts != [] { WithinRecent(ts[..|ts| - 1], now, span, from); }
  }

  /** Adding a time when fewer than `most` are recent keeps every span within bounds. */
  lemma SparseAppend(ts: seq<int>, now: int, span: int, most: nat)
    requires Sparse(ts, span, most) && |Recent(ts, now, span)| < most
    ensures Sparse(ts + [now], span, most)
  {
    forall from: int ensures Within(ts + [now], from, span) <= most {
      assert (ts + [now])[..|ts|] == ts;
      if from <= now < from + span { WithinRecent(ts, now, span, from); }
    }
  }

  /** Pruning what an earlier pruning left is pruning the whole record. */
  lemma {:induction false} RecentAgain(ts: seq<int>, before: int, now: int, span: int, narrow: int)
    requires before <= now && narrow <= span
    ensures Recent(Recent(ts, before, span), now, narrow) == Recent(ts, now, narrow)
  {
    if ts != [] {
      var front, last := ts[..|ts| - 1], ts[|ts| - 1];
      RecentAgain(front, before, now, span, narrow);
      var kept := Recent(front, before, span);
      assert before - last < span ==> (kept + [last])[..|kept|] == kept;
      assert kept + [] == kept;
    }
  }

  lemma RecentAppend(ts: seq<int>, now: int, span: int)
    requires 0 < span
    ensures Recent(ts + [now], now, span) == Recent(ts, now, span) + [now]
  {
    assert (ts + [now])[..|ts|] == ts;
  }

  // ---- The manager ----------------------------------------------------------------------

  datatype Outcome = Seated | Waitlisted | CapacityFull | AuthRequired | RateLimited

  datatype Hall = Hall(cap: nat, seated: seq<string>, waitlist: seq<string>, joins: map<string, seq<int>>)

  function JoinsOf(joins: map<string, seq<int>>, who: string): seq<int> { if who in joins then joins[who] else [] }

  predicate Limited(recent: seq<int>, now: int) {
    |Recent(recent, now, MINUTE)| >= PER_MINUTE || |recent| >= PER_HOUR
  }

  function TakePlace(h: Hall, who: string): (Hall, Outcome) {
    if |h.seated| < h.cap then (h.(seated := h.seated + [who]), Seated)
    else if |h.waitlist| < WAITLIST_DEPTH then (h.(waitlist := h.waitlist + [who]), Waitlisted)
    else (h, CapacityFull)
  }

  function Admit(h: Hall, who: string, authenticated: bool, now: int): (Hall, Outcome) {
    if !authenticated then (h, AuthRequired)
    else
      var recent := Recent(JoinsOf(h.joins, who), now, HOUR);
      if Limited(recent, now) then (h.(joins := h.joins[who := recent]), RateLimited)
      else TakePlace(h.(joins := h.joins[who := recent + [now]]), who)
  }

  function RemoveFirst(list: seq<string>, who: string): seq<string> {
    if list == [] then [] else if list[0] == who then list[1..] else [list[0]] + RemoveFirst(list[1..], who)
  }

  predicate Promotes(h: Hall, who: string) { h.waitlist != [] && |RemoveFirst(h.seated, who)| < h.cap }

  function Release(h: Hall, who: string): Hall {
    var left := RemoveFirst(h.seated, who);
    if Promotes(h, who) then h.(seated := left + [h.waitlist[0]], waitlist := h.waitlist[1..])
    else h.(seated := left)
  }

  lemma {:induction false} RemoveAt(list: seq<string>, i: nat, who: string)
    requires i < |list| && who !in list[..i]
    ensures list[i] == who ==> RemoveFirst(list, who) == list[..i] + list[i + 1..]
  {
    if i > 0 {
      assert list[0] in list[..i];
      assert list[..i] == [list[0]] + list[1..][..i - 1];
      RemoveAt(list[1..], i - 1, who);
    }
  }

  class Manager {
    const cap: nat
    var seated: seq<string>
    var waitlist: seq<string>
    var joins: map<string, seq<int>>

    function State(): Hall
      reads this
    {
      Hall(cap, seated, waitlist, joins)
    }

    constructor (wanted: int)
      ensures var limit := if wanted > HARD_CEILING then HARD_CEILING else wanted;
              State() == Hall(if wanted <= 0 then DEFAULT_CAP else limit, [], [], map[])
    {
      var c := if wanted <= 0 then DEFAULT_CAP else wanted;
      cap := if c > HARD_CEILING then HARD_CEILING else c;
      seated, waitlist, joins := [], [], map[];
    }

    static method Prune(ts: seq<int>, now: int, span: int) returns (kept: seq<int>)
      ensures kept == Recent(ts, now, span)
    {
      kept := [];
      for i := 0 to |ts|
        invariant kept == Recent(ts[..i], now, span)
      {
        assert ts[..i + 1][..i] == ts[..i];
        if now - ts[i] < span { kept := kept + [ts[i]]; }
      }
      assert ts[..|ts|] == ts;
    }

    static method CountSince(ts: seq<int>, now: int, span: int) returns (n: nat)
      ensures n == |Recent(ts, now, span)|
    {
      n := 0;
      for i := 0 to |ts|
        invariant n == |Recent(ts[..i], now, span)|
      {
        assert ts[..i + 1][..i] == ts[..i];
        if now - ts[i] < span { n := n + 1; }
      }
      assert ts[..|ts|] == ts;
    }

    method Join(who: string, authenticated: bool, now: int) returns (r: Outcome)
      modifies this
      ensures (State(), r) == Admit(old(State()), who, authenticated, now)
    {
      hide Recent;
      if !authenticated { return AuthRequired; }
      var ts := if who in joins then joins[who] else [];
      var pruned := Prune(ts, now, HOUR);
      joins := joins[who := pruned];
      var lastMinute := CountSince(pruned, now, MINUTE);
      if lastMinute >= PER_MINUTE || |pruned| >= PER_HOUR { return RateLimited; }
      joins := joins[who := pruned + [now]];
      assert joins == old(joins)[who := pruned + [now]];
      if |seated| < cap {
        seated := seated + [who];
        return Seated;
      }
      if |waitlist| < WAITLIST_DEPTH {
        waitlist := waitlist + [who];
        return Waitlisted;
      }
      return CapacityFull;
    }

    static method WithoutFirst(list: seq<string>, who: string) returns (r: seq<string>)
      ensures r == RemoveFirst(list, who)
    {
      hide RemoveFirst;
      var i := 0;
      while i < |list|
        invariant 0 <= i <= |list| && who !in list[..i]
      {
        RemoveAt(list, i, who);
        if list[i] == who { return list[..i] + list[i + 1..]; }
        i := i + 1;
      }
      RemoveFirstLength(list, who);
      assert list[..i] == list;
      r := list;
    }

    method Leave(who: string)
      modifies this
      ensures State() == Release(old(State()), who)
    {
      seated := WithoutFirst(seated, who);
      if |waitlist| > 0 && |seated| < cap {
        var next := waitlist[0];
        waitlist := waitlist[1..];
        seated := seated + [next];
      }
    }

    method ExpireWaitlist()
      modifies this
      ensures State() == old(State()).(waitlist := [])
    {
      waitlist := [];
    }

    /** The number evicted, or nothing when the timeout is not positive. */
    method HostGone(timeout: int) returns (evicted: int, ok: bool)
      modifies this
      ensures ok <==> timeout > 0
      ensures if ok then evicted == |old(seated)| && State() == old(State()).(seated := [], waitlist := [])
              else evicted == 0 && State() == old(State())
    {
      if timeout <= 0 { return 0, false; }
      evicted := |seated|;
      seated, waitlist := [], [];
      ok := true;
    }
  }

  // ---- Whole runs ------------------------------------------------------------------------

  datatype Event = Joins(who: string, authenticated: bool, now: int) | Leaves(who: string) | Expires
      | HostGoes(timeout: int)

  function Step(h: Hall, e: Event): Hall {
    match e
    case Joins(who, auth, now) => Admit(h, who, auth, now).0
    case Leaves(who) => Release(h, who)
    case Expires => h.(waitlist := [])
    case HostGoes(timeout) => if timeout > 0 then h.(seated := [], waitlist := []) else h
  }

  function After(h: Hall, es: seq<Event>): Hall
    decreases |es|
  {
    if es == [] then h else After(Step(h, es[0]), es[1..])
  }

  /** Seats are not overfilled, the list is not too long, and nobody waits while a seat is free. */
  predicate WellSeated(h: Hall) {
    |h.seated| <= h.cap && |h.waitlist| <= WAITLIST_DEPTH && (h.waitlist != [] ==> |h.seated| == h.cap)
  }

  lemma {:induction false} RemoveFirstLength(list: seq<string>, who: string)
    ensures |RemoveFirst(list, who)| == if who in list then |list| - 1 else |list|
    ensures who !in list ==> RemoveFirst(list, who) == list
  {
    if list != [] && list[0] != who { RemoveFirstLength(list[1..], who); }
  }

  lemma StepWellSeated(h: Hall, e: Event)
    requires WellSeated(h)
    ensures WellSeated(Step(h, e)) && Step(h, e).cap == h.cap
  {
    if e.Leaves? { RemoveFirstLength(h.seated, e.who); }
  }

  /** Over any run whatever: never more seated than the cap, never anyone waiting beside a free seat. */
  lemma {:induction false} StaysWellSeated(h: Hall, es: seq<Event>)
    requires WellSeated(h)
    ensures WellSeated(After(h, es)) && After(h, es).cap == h.cap
    decreases |es|
  {
    if es != [] {
      StepWellSeated(h, es[0]);
      StaysWellSeated(Step(h, es[0]), es[1..]);
    }
  }

  // ---- First come, first served ---------------------------------------------------------------

  /** Who enters the waiting list in a step, and who is promoted from it. */
  function Enters(h: Hall, e: Event): seq<string> {
    if e.Joins? && Admit(h, e.who, e.authenticated, e.now).1 == Waitlisted then [e.who] else []
  }

  function Promoted(h: Hall, e: Event): seq<string> {
    if e.Leaves? && Promotes(h, e.who) then [h.waitlist[0]] else []
  }

  function AllEntering(h: Hall, es: seq<Event>): seq<string>
    decreases |es|
  {
    if es == [] then [] else Enters(h, es[0]) + AllEntering(Step(h, es[0]), es[1..])
  }

  function AllPromoted(h: Hall, es: seq<Event>): seq<string>
    decreases |es|
  {
    if es == [] then [] else Promoted(h, es[0]) + AllPromoted(Step(h, es[0]), es[1..])
  }

  lemma QueueStep(h: Hall, e: Event)
    requires e.Joins? || e.Leaves?
    ensures h.waitlist + Enters(h, e) == Promoted(h, e) + Step(h, e).waitlist
  {
  }

  /** While the list is not cleared, those promoted are exactly the first of those who queued, in the
      order in which they queued; the rest are still waiting. */
  lemma {:induction false} FirstInFirstOut(h: Hall, es: seq<Event>)
    requires forall i :: 0 <= i < |es| ==> es[i].Joins? || es[i].Leaves?
    ensures h.waitlist + AllEntering(h, es) == AllPromoted(h, es) + After(h, es).waitlist
    decreases |es|
  {
    if es != [] {
      hide Step, Enters, Promoted;
      var next, rest := Step(h, es[0]), es[1..];
      QueueStep(h, es[0]);
      FirstInFirstOut(next, rest);
      Chained(h.waitlist, Enters(h, es[0]), AllEntering(next, rest), Promoted(h, es[0]), next.waitlist,
              AllPromoted(next, rest), After(next, rest).waitlist);
    }
  }

  lemma Chained<T>(a: seq<T>, b: seq<T>, c: seq<T>, p: seq<T>, mid: seq<T>, q: seq<T>, end: seq<T>)
    requires a + b == p + mid && mid + c == q + end
    ensures a + (b + c) == (p + q) + end
  {
    assert a + (b + c) == (a + b) + c;
    assert (p + mid) + c == p + (mid + c);
    assert p + (q + end) == (p + q) + end;
  }

  // ---- Join rates -----------------------------------------------------------------------------

  /** An attempt that passes authentication and the rate limit, whatever place it gets. */
  predicate Counts(h: Hall, e: Event, who: string) {
    e.Joins? && e.who == who && Admit(h, e.who, e.authenticated, e.now).1 !in {AuthRequired, RateLimited}
  }

  /** The times of an account's accepted attempts, all of them, however old. */
  function Attempts(h: Hall, es: seq<Event>, who: string): seq<int>
    decreases |es|
  {
    if es == [] then []
    else (if Counts(h, es[0], who) then [es[0].now] else []) + Attempts(Step(h, es[0]), es[1..], who)
  }

  /** The clock does not run backwards. */
  ghost predicate ClockRuns(es: seq<Event>, start: int)
    decreases |es|
  {
    es != [] ==> if es[0].Joins? then start <= es[0].now && ClockRuns(es[1..], es[0].now) else ClockRuns(es[1..], start)
  }

  /** What the manager keeps for an account is what is recent of its whole record. */
  ghost predicate Keeps(h: Hall, who: string, record: seq<int>, last: int) {
    JoinsOf(h.joins, who) == Recent(record, last, HOUR)
  }

  ghost predicate Lawful(record: seq<int>) { Sparse(record, MINUTE, PER_MINUTE) && Sparse(record, HOUR, PER_HOUR) }

  lemma JoinKeeps(h: Hall, e: Event, who: string, record: seq<int>, last: int)
    requires e.Joins? && last <= e.now && Keeps(h, who, record, last) && Lawful(record)
    ensures var next := if Counts(h, e, who) then record + [e.now] else record;
            Lawful(next) && if e.who == who && e.authenticated then Keeps(Step(h, e), who, next, e.now)
                            else Keeps(Step(h, e), who, next, last)
  {
    if e.who == who && e.authenticated {
      RecentAgain(record, last, e.now, HOUR, HOUR);
      RecentAgain(record, e.now, e.now, HOUR, MINUTE);
      if Counts(h, e, who) {
        SparseAppend(record, e.now, MINUTE, PER_MINUTE);
        SparseAppend(record, e.now, HOUR, PER_HOUR);
        RecentAppend(record, e.now, HOUR);
      }
    }
  }

  lemma {:induction false} RecordLawful(h: Hall, es: seq<Event>, who: string, record: seq<int>, last: int, start: int)
    requires Keeps(h, who, record, last) && Lawful(record) && last <= start && ClockRuns(es, start)
    ensures Lawful(record + Attempts(h, es, who))
    decreases |es|
  {
    hide Lawful, Keeps, Step, Counts;
    if es == [] {
      assert record + [] == record;
    } else {
      var e, next, rest := es[0], Step(h, es[0]), es[1..];
      var news := if e.Joins? && Counts(h, e, who) then [e.now] else [];
      assert record + news + Attempts(next, rest, who) == record + (news + Attempts(next, rest, who));
      assert record + [] == record;
      if e.Joins? {
        JoinKeeps(h, e, who, record, last);
        RecordLawful(next, rest, who, record + news, if e.who == who && e.authenticated then e.now else last, e.now);
      } else {
        OthersKeep(h, e, who, record, last);
        RecordLawful(next, rest, who, record, last, start);
      }
    }
  }

  lemma OthersKeep(h: Hall, e: Event, who: string, record: seq<int>, last: int)
    requires !e.Joins? && Keeps(h, who, record, last)
    ensures Keeps(Step(h, e), who, record, last) && !Counts(h, e, who)
  {
  }

  /** Over any run from a new manager: no account gets more than 6 attempts accepted in any minute, or
      60 in any hour, although old join times are pruned. */
  lemma JoinRatesHold(cap: nat, es: seq<Event>, who: string, start: int)
    requires ClockRuns(es, start)
    ensures var times := Attempts(Hall(cap, [], [], map[]), es, who);
            forall from: int :: Within(times, from, MINUTE) <= PER_MINUTE && Within(times, from, HOUR) <= PER_HOUR
  {
    var h := Hall(cap, [], [], map[]);
    RecordLawful(h, es, who, [], start, start);
    assert [] + Attempts(h, es, who) == Attempts(h, es, who);
  }

  // ---- Who is turned away -------------------------------------------------------------------------

  /** When the last join of a run was tried. */
  function ClockEnd(es: seq<Event>, start: int): int
    decreases |es|
  {
    if es == [] then start else ClockEnd(es[1..], if es[0].Joins? then es[0].now else start)
  }

  /** Recent times are those of the span that ends now. */
  lemma {:induction false} RecentIsWithin(ts: seq<int>, now: int, span: int)
    requires forall i :: 0 <= i < |ts| ==> ts[i] <= now
    ensures |Recent(ts, now, span)| == Within(ts, now - span + 1, span)
  {
    if ts != [] { RecentIsWithin(ts[..|ts| - 1], now, span); }
  }

  /** What the manager keeps after a run, and when it last pruned it. */
  lemma {:induction false} RecordKept(h: Hall, es: seq<Event>, who: string, record: seq<int>, last: int, start: int)
    returns (end: int)
    requires Keeps(h, who, record, last) && Lawful(record) && last <= start && ClockRuns(es, start)
    requires forall i :: 0 <= i < |record| ==> record[i] <= start
    ensures Keeps(After(h, es), who, record + Attempts(h, es, who), end) && end <= ClockEnd(es, start)
    ensures var times := record + Attempts(h, es, who);
            forall i :: 0 <= i < |times| ==> times[i] <= ClockEnd(es, start)
    decreases |es|
  {
    hide Lawful, Keeps, Step, Counts;
    if es == [] {
      assert record + [] == record;
      end := last;
    } else {
      var e, next, rest := es[0], Step(h, es[0]), es[1..];
      var news := if e.Joins? && Counts(h, e, who) then [e.now] else [];
      assert record + news + Attempts(next, rest, who) == record + (news + Attempts(next, rest, who));
      assert record + [] == record;
      if e.Joins? {
        JoinKeeps(h, e, who, record, last);
        var pruned := if e.who == who && e.authenticated then e.now else last;
        end := RecordKept(next, rest, who, record + news, pruned, e.now);
      } else {
        OthersKeep(h, e, who, record, last);
        end := RecordKept(next, rest, who, record, last, start);
      }
    }
  }

  lemma NothingYet(h: Hall, who: string, start: int)
    requires who !in h.joins
    ensures Keeps(h, who, [], start) && Lawful([])
  {
  }

  /** After any run an authenticated account is turned away for trying too often exactly when six of its attempts
      were accepted in the minute, or sixty in the hour, that ends now. */
  lemma TurnedAwayExactly(cap: nat, es: seq<Event>, who: string, start: int, now: int)
    requires ClockRuns(es, start) && ClockEnd(es, start) <= now
    ensures var h := Hall(cap, [], [], map[]); var times := Attempts(h, es, who);
            Admit(After(h, es), who, true, now).1 == RateLimited <==>
            Within(times, now - MINUTE + 1, MINUTE) >= PER_MINUTE || Within(times, now - HOUR + 1, HOUR) >= PER_HOUR
  {
    hide Recent, Within, Attempts, After, ClockRuns, ClockEnd;
    var h := Hall(cap, [], [], map[]);
    var times := Attempts(h, es, who);
    NothingYet(h, who, start);
    var end := RecordKept(h, es, who, [], start, start);
    assert [] + times == times;
    RecentAgain(times, end, now, HOUR, HOUR);
    RecentAgain(times, now, now, HOUR, MINUTE);
    RecentIsWithin(times, now, MINUTE);
    RecentIsWithin(times, now, HOUR);
  }

  /** Whoever is not turned away gets a seat if one is free, else a place in the queue if that is not full; the
      others keep theirs. */
  lemma PlacedExactly(h: Hall, who: string, now: int)
    ensures var (g, r) := Admit(h, who, true, now);
            r != RateLimited ==>
              && (r == Seated <==> |h.seated| < h.cap)
              && (r == Waitlisted <==> |h.seated| >= h.cap && |h.waitlist| < WAITLIST_DEPTH)
              && g.seated == h.seated + (if r == Seated then [who] else [])
              && g.waitlist == h.waitlist + (if r == Waitlisted then [who] else [])
  {
  }
}
