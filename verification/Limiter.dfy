/** The in-memory rate and budget limiter (app/gateway/limits.py). Each method is one atomic
    step; `now` is its clock reading, in seconds. */
module Limiter {
  import opened Values
  import opened Clock

  datatype Decision = Allowed | RateLimited(retryAfter: int) | OverBudget

  /** The window after the expired requests have been popped from its left end. */
  function Pruned(window: seq<real>, now: real): seq<real> {
    if window != [] && window[0] < now - 60.0 then Pruned(window[1..], now) else window
  }

  /** Pruning drops a stretch of expired requests, and stops at the first live one. */
  lemma {:induction false} PrunedFacts(window: seq<real>, now: real)
    ensures var w := Pruned(window, now);
            && |w| <= |window| && w == window[|window| - |w|..]
            && (forall i | 0 <= i < |window| - |w| :: window[i] < now - 60.0)
            && (w != [] ==> w[0] >= now - 60.0)
  {
    if window != [] && window[0] < now - 60.0 {
      PrunedFacts(window[1..], now);
    }
  }

  /** `max(1, int(60 - (now - oldest)) + 1)`. */
  function RetryAfter(now: real, oldest: real): int {
    var wait := (60.0 - (now - oldest)).Floor + 1;
    if wait < 1 then 1 else wait
  }

  predicate RatePasses(rpm: nat, window: seq<real>, now: real) {
    rpm == 0 || |Pruned(window, now)| < rpm
  }

  /** The window a check leaves behind. With no limit there is none. */
  function WindowAfter(rpm: nat, window: seq<real>, now: real): seq<real> {
    if rpm == 0 then window
    else if RatePasses(rpm, window, now) then Pruned(window, now) + [now]
    else Pruned(window, now)
  }

  /** The (day, used) pair of one caller. */
  datatype Spent = Spent(day: int, used: nat)

  function UsedOnDay(spent: Option<Spent>, day: int): nat {
    if spent.Some? && spent.value.day == day then spent.value.used else 0
  }

  function DecisionAt(rpm: nat, tpd: nat, window: seq<real>, spent: Option<Spent>, now: real): Decision {
    if !RatePasses(rpm, window, now) then RateLimited(RetryAfter(now, Pruned(window, now)[0]))
    else if tpd != 0 && UsedOnDay(spent, DayOf(now)) >= tpd then OverBudget
    else Allowed
  }

  function Charged(tpd: nat, spent: Option<Spent>, day: int, tokens: int): Option<Spent> {
    if tpd == 0 || tokens <= 0 then spent else Some(Spent(day, UsedOnDay(spent, day) + tokens))
  }

  class RequestLimiter {
    const rpm: nat
    const tpd: nat
    var requests: map<string, seq<real>>
    var tokens: map<string, Spent>

    ghost function Window(caller: string): seq<real>
      reads this
    {
      if caller in requests then requests[caller] else []
    }

    ghost function SpentBy(caller: string): Option<Spent>
      reads this
    {
      if caller in tokens then Some(tokens[caller]) else None
    }

    constructor (rpm: nat, tpd: nat)
      ensures this.rpm == rpm && this.tpd == tpd && requests == map[] && tokens == map[]
    {
      this.rpm, this.tpd, requests, tokens := rpm, tpd, map[], map[];
    }

    /** Allow (and count) a request, or refuse it. Nothing of another caller changes. */
    method Check(caller: string, now: real) returns (d: Decision)
      modifies this`requests
      ensures d == DecisionAt(rpm, tpd, old(Window(caller)), SpentBy(caller), now)
      ensures Window(caller) == WindowAfter(rpm, old(Window(caller)), now)
      ensures forall other | other != caller :: Window(other) == old(Window(other))
    {
      if rpm != 0 {
        var window := if caller in requests then requests[caller] else [];
        ghost var before := window;
        while window != [] && window[0] < now - 60.0
          invariant Pruned(window, now) == Pruned(before, now)
          decreases |window|
        {
          window := window[1..];
        }
        assert window == Pruned(before, now) && (RatePasses(rpm, before, now) <==> |window| < rpm);
        requests := requests[caller := window];
        if |window| >= rpm {
          return RateLimited(RetryAfter(now, window[0]));
        }
        requests := requests[caller := window + [now]];
      }
      if tpd != 0 {
        var day := DayOf(now);
        var used := if caller in tokens && tokens[caller].day == day then tokens[caller].used else 0;
        if used >= tpd {
          return OverBudget;
        }
      }
      return Allowed;
    }

    method Charge(caller: string, now: real, n: int)
      modifies this`tokens
      ensures SpentBy(caller) == Charged(tpd, old(SpentBy(caller)), DayOf(now), n)
      ensures forall other | other != caller :: SpentBy(other) == old(SpentBy(other))
    {
      if tpd == 0 || n <= 0 {
        return;
      }
      var day := DayOf(now);
      var used := if caller in tokens && tokens[caller].day == day then tokens[caller].used else 0;
      tokens := tokens[caller := Spent(day, used + n)];
    }

    method UsedToday(caller: string, now: real) returns (used: nat)
      ensures used == UsedOnDay(SpentBy(caller), DayOf(now))
    {
      if caller in tokens && tokens[caller].day == DayOf(now) {
        return tokens[caller].used;
      }
      return 0;
    }
  }

  // ---- The sliding window, over whole runs --------------------------------------------

  /** Clock readings do not go backwards. */
  predicate Sorted(times: seq<real>) {
    forall i, j | 0 <= i < j < |times| :: times[i] <= times[j]
  }

  /** The requests of one caller that pass the rate check, in order. */
  function Accepted(rpm: nat, window: seq<real>, times: seq<real>): seq<real>
    decreases |times|
  {
    if times == [] then []
    else
      var rest := Accepted(rpm, WindowAfter(rpm, window, times[0]), times[1..]);
      if RatePasses(rpm, window, times[0]) then [times[0]] + rest else rest
  }

  /** More than a minute lies between a request and any that is `rpm` or more after it. */
  predicate Spread(rpm: nat, times: seq<real>) {
    forall i, j | 0 <= i < j < |times| && j - i >= rpm :: times[j] > times[i] + 60.0
  }

  /** The window is the tail of all that was accepted; what fell off has expired. */
  predicate Tail(rpm: nat, past: seq<real>, window: seq<real>, now: real) {
    && |window| <= rpm && |window| <= |past| && past[|past| - |window|..] == window
    && (forall i | 0 <= i < |past| - |window| :: past[i] < now - 60.0)
    && (forall i | 0 <= i < |past| :: past[i] <= now)
    && Sorted(past) && Spread(rpm, past)
  }

  /** Pruning keeps a tail: what it drops has expired, like what was dropped before. */
  lemma PrunedIsTail(past: seq<real>, window: seq<real>, now: real)
    requires |window| <= |past| && past[|past| - |window|..] == window
    requires forall i | 0 <= i < |past| - |window| :: past[i] < now - 60.0
    ensures var w := Pruned(window, now);
            && |w| <= |past| && past[|past| - |w|..] == w
            && forall i | 0 <= i < |past| - |w| :: past[i] < now - 60.0
  {
    PrunedFacts(window, now);
    var w := Pruned(window, now);
    forall i | 0 <= i < |past| - |w|
      ensures past[i] < now - 60.0
    {
      if i >= |past| - |window| {
        assert past[i] == window[i - (|past| - |window|)];
      }
    }
    assert past[|past| - |w|..] == w;
  }

  lemma AcceptOne(rpm: nat, past: seq<real>, kept: nat, now: real)
    requires kept < rpm && kept <= |past| && Sorted(past) && Spread(rpm, past)
    requires forall i | 0 <= i < |past| - kept :: past[i] < now - 60.0
    requires forall i | 0 <= i < |past| :: past[i] <= now
    ensures Sorted(past + [now]) && Spread(rpm, past + [now])
  {
    var more := past + [now];
    forall i, j | 0 <= i < j < |more| && j - i >= rpm
      ensures more[j] > more[i] + 60.0
    {
      assert more[i] == past[i];
      if j < |past| {
        assert more[j] == past[j];
      }
    }
  }

  lemma TailAccepts(rpm: nat, past: seq<real>, w: seq<real>, now: real)
    requires |w| < rpm && Tail(rpm, past, w, now)
    ensures Tail(rpm, past + [now], w + [now], now)
  {
    AcceptOne(rpm, past, |w|, now);
    var more := past + [now];
    assert |more| - |w + [now]| == |past| - |w|;
    assert more[|past| - |w|..] == past[|past| - |w|..] + [now];
  }

  lemma TailPrunes(rpm: nat, past: seq<real>, window: seq<real>, before: real, now: real)
    requires before <= now && Tail(rpm, past, window, before)
    ensures Tail(rpm, past, Pruned(window, now), now)
  {
    PrunedFacts(window, now);
    PrunedIsTail(past, window, now);
  }

  /** What has been accepted after one more request. */
  function PastAfter(rpm: nat, past: seq<real>, window: seq<real>, now: real): seq<real> {
    if RatePasses(rpm, window, now) then past + [now] else past
  }

  lemma TailStep(rpm: nat, past: seq<real>, window: seq<real>, before: real, now: real)
    requires rpm > 0 && before <= now && Tail(rpm, past, window, before)
    ensures Tail(rpm, PastAfter(rpm, past, window, now), WindowAfter(rpm, window, now), now)
  {
    TailPrunes(rpm, past, window, before, now);
    PrunedFacts(window, now);
    if RatePasses(rpm, window, now) {
      TailAccepts(rpm, past, Pruned(window, now), now);
    }
  }

  /** The window after a sequence of checks. */
  function WindowAfterAll(rpm: nat, window: seq<real>, times: seq<real>): seq<real>
    decreases |times|
  {
    if times == [] then window else WindowAfterAll(rpm, WindowAfter(rpm, window, times[0]), times[1..])
  }

  function LastOf(times: seq<real>, before: real): real {
    if times == [] then before else times[|times| - 1]
  }

  /** Every reachable window is the tail of what was accepted. */
  lemma {:induction false} WindowIsTail(rpm: nat, past: seq<real>, window: seq<real>, times: seq<real>, before: real)
    requires rpm > 0 && Tail(rpm, past, window, before)
    requires Sorted(times) && (times != [] ==> before <= times[0])
    ensures Tail(rpm, past + Accepted(rpm, window, times), WindowAfterAll(rpm, window, times), LastOf(times, before))
    decreases |times|
  {
    if times == [] {
      assert past + [] == past;
    } else {
      var now := times[0];
      TailStep(rpm, past, window, before, now);
      SortedRest(times);
      WindowIsTail(rpm, PastAfter(rpm, past, window, now), WindowAfter(rpm, window, now), times[1..], now);
      AcceptedFirst(rpm, past, window, times);
      LastOfRest(times, before);
    }
  }

  lemma LastOfRest(times: seq<real>, before: real)
    requires times != []
    ensures LastOf(times, before) == LastOf(times[1..], times[0])
  {
  }

  lemma SortedRest(times: seq<real>)
    requires Sorted(times) && times != []
    ensures Sorted(times[1..]) && (times[1..] != [] ==> times[0] <= times[1..][0])
  {
  }

  lemma AcceptedFirst(rpm: nat, past: seq<real>, window: seq<real>, times: seq<real>)
    requires times != []
    ensures past + Accepted(rpm, window, times)
         == PastAfter(rpm, past, window, times[0]) + Accepted(rpm, WindowAfter(rpm, window, times[0]), times[1..])
  {
    AppendAssoc(past, times[0], Accepted(rpm, WindowAfter(rpm, window, times[0]), times[1..]));
  }

  lemma AppendAssoc(a: seq<real>, x: real, b: seq<real>)
    ensures a + ([x] + b) == (a + [x]) + b
  {
  }

  /** The positions of the times within the closed minute that starts at `t`. */
  function InMinute(times: seq<real>, t: real): set<int> {
    set i | 0 <= i < |times| && t <= times[i] <= t + 60.0
  }

  function Range(lo: int, n: nat): (r: set<int>)
    ensures |r| == n && forall i :: i in r <==> lo <= i < lo + n
  {
    if n == 0 then {} else Range(lo, n - 1) + {lo + n - 1}
  }

  lemma SubsetSize(a: set<int>, b: set<int>)
    requires a <= b
    ensures |a| <= |b|
  {
    assert b == a + (b - a);
  }

  lemma SpreadBoundsMinute(rpm: nat, times: seq<real>, t: real)
    requires rpm > 0 && Sorted(times) && Spread(rpm, times)
    ensures |InMinute(times, t)| <= rpm
  {
    var ids := InMinute(times, t);
    if ids != {} {
      var lo := FirstIn(times, t);
      assert forall i | i in ids :: i - lo < rpm;
      SubsetSize(ids, Range(lo, rpm));
    }
  }

  /** The first position in that minute. */
  lemma FirstIn(times: seq<real>, t: real) returns (lo: int)
    requires InMinute(times, t) != {}
    ensures lo in InMinute(times, t) && forall i | i in InMinute(times, t) :: lo <= i
  {
    lo := 0;
    var some :| some in InMinute(times, t);
    while lo !in InMinute(times, t)
      invariant 0 <= lo <= some
      invariant forall i | i in InMinute(times, t) :: lo <= i
      decreases some - lo
    {
      lo := lo + 1;
    }
  }

  /** For every sequence of calls, at most `rpm` requests of a caller pass the rate check in
      any closed interval of sixty seconds. */
  lemma AtMostRpmPerMinute(rpm: nat, times: seq<real>, t: real)
    requires rpm > 0 && Sorted(times)
    ensures |InMinute(Accepted(rpm, [], times), t)| <= rpm
  {
    if times == [] {
      assert InMinute(Accepted(rpm, [], times), t) == {};
    } else {
      WindowIsTail(rpm, [], [], times, times[0]);
      assert [] + Accepted(rpm, [], times) == Accepted(rpm, [], times);
      SpreadBoundsMinute(rpm, Accepted(rpm, [], times), t);
    }
  }

  /** None of the checks passes the rate limit. */
  predicate AllRefused(rpm: nat, window: seq<real>, times: seq<real>)
    decreases |times|
  {
    times == [] ||
    (!RatePasses(rpm, window, times[0]) && AllRefused(rpm, WindowAfter(rpm, window, times[0]), times[1..]))
  }

  /** The oldest request of a tail comes first, and none lies in the future. */
  lemma TailFacts(rpm: nat, past: seq<real>, w: seq<real>, now: real)
    requires Tail(rpm, past, w, now)
    ensures |w| <= rpm && forall i | 0 <= i < |w| :: w[0] <= w[i] <= now
  {
    var n := |past| - |w|;
    forall i | 0 <= i < |w|
      ensures w[0] <= w[i] <= now
    {
      assert w[i] == past[n + i] && w[0] == past[n];
    }
  }

  lemma ReachableTail(rpm: nat, times: seq<real>, now: real)
    requires rpm > 0 && Sorted(times) && (times != [] ==> LastOf(times, now) <= now)
    ensures var w := Pruned(WindowAfterAll(rpm, [], times), now);
            |w| <= rpm && forall i | 0 <= i < |w| :: w[0] <= w[i] <= now
  {
    if times != [] {
      var last := LastOf(times, now);
      WindowIsTail(rpm, [], [], times, times[0]);
      var window, past := WindowAfterAll(rpm, [], times), [] + Accepted(rpm, [], times);
      TailPrunes(rpm, past, window, last, now);
      TailFacts(rpm, past, Pruned(window, now), now);
    }
  }

  /** Pruning twice is pruning once, at the later time. */
  lemma {:induction false} PrunedTwice(window: seq<real>, now: real, later: real)
    requires now <= later
    ensures Pruned(Pruned(window, now), later) == Pruned(window, later)
  {
    if window != [] && window[0] < now - 60.0 {
      PrunedTwice(window[1..], now, later);
    }
  }

  /** Refused checks leave nothing behind but a pruned window. */
  lemma {:induction false} RefusedChecksOnlyPrune(rpm: nat, window: seq<real>, times: seq<real>, later: real)
    requires Sorted(times) && (times != [] ==> LastOf(times, later) <= later) && AllRefused(rpm, window, times)
    ensures Pruned(WindowAfterAll(rpm, window, times), later) == Pruned(window, later)
    decreases |times|
  {
    if times != [] {
      var rest := times[1..];
      SortedRest(times);
      assert rest != [] ==> LastOf(rest, later) == LastOf(times, later);
      RefusedChecksOnlyPrune(rpm, WindowAfter(rpm, window, times[0]), rest, later);
      PrunedTwice(window, times[0], later);
    }
  }

  /** After any checks of a caller, one is refused at `now`. However many more are refused in
      between, the first one that passes is the first that comes more than sixty seconds after
      the oldest request in the window. */
  lemma PassesIffOldestExpires(rpm: nat, times: seq<real>, now: real, between: seq<real>, later: real)
    requires rpm > 0 && Sorted(times + [now] + between + [later])
    requires !RatePasses(rpm, WindowAfterAll(rpm, [], times), now)
    requires AllRefused(rpm, WindowAfter(rpm, WindowAfterAll(rpm, [], times), now), between)
    ensures var window := WindowAfterAll(rpm, [], times);
            && Pruned(window, now) != []
            && (RatePasses(rpm, WindowAfterAll(rpm, WindowAfter(rpm, window, now), between), later)
                <==> later > Pruned(window, now)[0] + 60.0)
  {
    OrderedParts(times, now, between, later);
    ReachableTail(rpm, times, now);
    var w := Pruned(WindowAfterAll(rpm, [], times), now);
    RefusedChecksOnlyPrune(rpm, w, between, later);
    if later > w[0] + 60.0 {
      PrunedFacts(w[1..], later);
      assert Pruned(w, later) == Pruned(w[1..], later);
    }
  }

  /** The advice given with a refusal is good: it lies in 1..61, and a check that comes that
      long after it passes, however many were refused in between. */
  lemma WaitingAsToldPasses(rpm: nat, tpd: nat, times: seq<real>, spent: Option<Spent>, now: real,
                            between: seq<real>, later: real)
    requires rpm > 0 && Sorted(times + [now] + between + [later])
    requires !RatePasses(rpm, WindowAfterAll(rpm, [], times), now)
    requires AllRefused(rpm, WindowAfter(rpm, WindowAfterAll(rpm, [], times), now), between)
    requires later >= now + DecisionAt(rpm, tpd, WindowAfterAll(rpm, [], times), spent, now).retryAfter as real
    ensures 1 <= DecisionAt(rpm, tpd, WindowAfterAll(rpm, [], times), spent, now).retryAfter <= 61
    ensures RatePasses(rpm, WindowAfterAll(rpm, WindowAfter(rpm, WindowAfterAll(rpm, [], times), now), between), later)
  {
    OrderedParts(times, now, between, later);
    ReachableTail(rpm, times, now);
    var w := Pruned(WindowAfterAll(rpm, [], times), now);
    PrunedFacts(WindowAfterAll(rpm, [], times), now);
    assert now - 60.0 <= w[0] <= now;
    assert RetryAfter(now, w[0]) as real > 60.0 - (now - w[0]);
    PassesIffOldestExpires(rpm, times, now, between, later);
  }

  /** And it is the shortest such wait in whole seconds: a check that comes a second earlier, or
      any sooner, is refused like those in between. */
  lemma OneSecondLessIsRefused(rpm: nat, tpd: nat, times: seq<real>, spent: Option<Spent>, now: real,
                               between: seq<real>, later: real)
    requires rpm > 0 && Sorted(times + [now] + between + [later])
    requires !RatePasses(rpm, WindowAfterAll(rpm, [], times), now)
    requires AllRefused(rpm, WindowAfter(rpm, WindowAfterAll(rpm, [], times), now), between)
    requires later <= now + DecisionAt(rpm, tpd, WindowAfterAll(rpm, [], times), spent, now).retryAfter as real - 1.0
    ensures !RatePasses(rpm, WindowAfterAll(rpm, WindowAfter(rpm, WindowAfterAll(rpm, [], times), now), between), later)
  {
    OrderedParts(times, now, between, later);
    var w := Pruned(WindowAfterAll(rpm, [], times), now);
    PrunedFacts(WindowAfterAll(rpm, [], times), now);
    ReachableTail(rpm, times, now);
    assert (60.0 - (now - w[0])).Floor as real <= 60.0 - (now - w[0]);
    PassesIffOldestExpires(rpm, times, now, between, later);
  }

  /** The window holds exactly the requests accepted in the last sixty seconds. */
  lemma WindowIsTheLastMinute(rpm: nat, times: seq<real>, now: real)
    requires rpm > 0 && Sorted(times + [now])
    ensures |Pruned(WindowAfterAll(rpm, [], times), now)| == |InMinute(Accepted(rpm, [], times), now - 60.0)|
  {
    var window, past := WindowAfterAll(rpm, [], times), Accepted(rpm, [], times);
    if times == [] {
      assert InMinute(past, now - 60.0) == {};
    } else {
      assert forall i | 0 <= i < |times| :: (times + [now])[i] == times[i];
      assert (times + [now])[|times|] == now;
      WindowIsTail(rpm, [], [], times, times[0]);
      assert [] + past == past;
      TailPrunes(rpm, past, window, LastOf(times, now), now);
      PrunedFacts(window, now);
      TailIsTheMinute(rpm, past, Pruned(window, now), now);
    }
  }

  lemma TailIsTheMinute(rpm: nat, past: seq<real>, w: seq<real>, now: real)
    requires Tail(rpm, past, w, now) && (w != [] ==> w[0] >= now - 60.0)
    ensures |InMinute(past, now - 60.0)| == |w|
  {
    var n := |past| - |w|;
    forall i | n <= i < |past|
      ensures now - 60.0 <= past[i] <= now
    {
      assert past[i] == w[i - n] && past[n] == w[0];
    }
    assert InMinute(past, now - 60.0) == Range(n, |w|);
  }

  lemma OrderedParts(times: seq<real>, now: real, between: seq<real>, later: real)
    requires Sorted(times + [now] + between + [later])
    ensures Sorted(times) && Sorted(between) && now <= later
    ensures times != [] ==> LastOf(times, now) <= now
    ensures between != [] ==> LastOf(between, later) <= later
  {
    var all, n := times + [now] + between + [later], |times| + 1;
    assert all[n - 1] == now && all[|all| - 1] == later;
    assert forall i | 0 <= i < |times| :: all[i] == times[i];
    assert forall i | 0 <= i < |between| :: all[n + i] == between[i];
  }

  // ---- The daily budget, over whole runs ------------------------------------------------

  datatype Entry = Entry(day: int, tokens: nat)

  function TotalOn(ledger: seq<Entry>, day: int): nat {
    if ledger == [] then 0
    else TotalOn(ledger[..|ledger| - 1], day)
         + (if ledger[|ledger| - 1].day == day then ledger[|ledger| - 1].tokens else 0)
  }

  /** One caller at the gateway: the limiter's pair, the full ledger of its charges, and the
      requests that were admitted and have not yet been charged. */
  datatype Account = Account(spent: Option<Spent>, ledger: seq<Entry>, inFlight: nat)

  datatype Op =
    | Arrive(day: int, ratePasses: bool)
    | Finish(day: int, tokens: int)
    | Fail(day: int)

  predicate Admitted(tpd: nat, a: Account, op: Op) {
    op.Arrive? && op.ratePasses && (tpd == 0 || UsedOnDay(a.spent, op.day) < tpd)
  }

  function Apply(tpd: nat, a: Account, op: Op): Account {
    match op
    case Arrive(_, _) => if Admitted(tpd, a, op) then a.(inFlight := a.inFlight + 1) else a
    case Fail(_) => if a.inFlight > 0 then a.(inFlight := a.inFlight - 1) else a
    case Finish(day, tokens) =>
      if a.inFlight == 0 then a
      else Account(Charged(tpd, a.spent, day, tokens),
                   if tpd != 0 && tokens > 0 then a.ledger + [Entry(day, tokens)] else a.ledger,
                   a.inFlight - 1)
  }

  function Run(tpd: nat, a: Account, ops: seq<Op>): Account
    decreases |ops|
  {
    if ops == [] then a else Run(tpd, Apply(tpd, a, ops[0]), ops[1..])
  }

  /** Days do not go backwards, at most `k` requests are in flight at once, and no charge
      exceeds `c`. */
  predicate Orderly(tpd: nat, a: Account, ops: seq<Op>, today: int, k: nat, c: nat)
    decreases |ops|
  {
    ops == [] ||
    (&& today <= ops[0].day
     && (ops[0].Finish? ==> ops[0].tokens <= c)
     && Apply(tpd, a, ops[0]).inFlight <= k
     && Orderly(tpd, Apply(tpd, a, ops[0]), ops[1..], ops[0].day, k, c))
  }

  predicate NoLaterThan(ledger: seq<Entry>, day: int) {
    forall i | 0 <= i < |ledger| :: ledger[i].day <= day
  }

  /** The pair is the ledger's total of its last day, and no later day has charges. */
  predicate Faithful(a: Account, today: int) {
    match a.spent
    case None => a.ledger == []
    case Some(s) => s.day <= today && s.used == TotalOn(a.ledger, s.day) && NoLaterThan(a.ledger, s.day)
  }

  lemma {:induction false} NoChargesAfter(ledger: seq<Entry>, last: int, day: int)
    requires NoLaterThan(ledger, last) && last < day
    ensures TotalOn(ledger, day) == 0
  {
    if ledger != [] {
      NoChargesAfter(ledger[..|ledger| - 1], last, day);
    }
  }

  lemma TotalSnoc(ledger: seq<Entry>, e: Entry, day: int)
    ensures TotalOn(ledger + [e], day) == TotalOn(ledger, day) + (if e.day == day then e.tokens else 0)
  {
    assert (ledger + [e])[..|ledger|] == ledger;
  }

  /** The compact pair agrees with the full ledger, today and on every later day. */
  lemma PairAgreesWithLedger(a: Account, today: int, day: int)
    requires Faithful(a, today) && today <= day
    ensures UsedOnDay(a.spent, day) == TotalOn(a.ledger, day)
  {
    if a.spent.Some? && a.spent.value.day < day {
      NoChargesAfter(a.ledger, a.spent.value.day, day);
    }
  }

  lemma ChargeKeepsFaithful(a: Account, day: int, today: int, tokens: nat, inFlight: nat)
    requires Faithful(a, today) && today <= day
    ensures Faithful(Account(Some(Spent(day, UsedOnDay(a.spent, day) + tokens)), a.ledger + [Entry(day, tokens)], inFlight), day)
  {
    PairAgreesWithLedger(a, today, day);
    TotalSnoc(a.ledger, Entry(day, tokens), day);
    assert NoLaterThan(a.ledger, day);
    assert NoLaterThan(a.ledger + [Entry(day, tokens)], day);
  }

  lemma ApplyKeepsFaithful(tpd: nat, a: Account, op: Op, today: int)
    requires Faithful(a, today) && today <= op.day
    ensures Faithful(Apply(tpd, a, op), op.day)
  {
    if op.Finish? && a.inFlight > 0 && tpd != 0 && op.tokens > 0 {
      ChargeKeepsFaithful(a, op.day, today, op.tokens, a.inFlight - 1);
    }
  }

  /** `n * c`, one charge at a time. */
  function Times(n: nat, c: nat): nat {
    if n == 0 then 0 else c + Times(n - 1, c)
  }

  lemma {:induction false} TimesIsProduct(n: nat, c: nat)
    ensures Times(n, c) == n * c
  {
    if n > 0 {
      TimesIsProduct(n - 1, c);
    }
  }

  lemma {:induction false} TimesMonotone(m: nat, n: nat, c: nat)
    requires m <= n
    ensures Times(m, c) <= Times(n, c)
    decreases n
  {
    if m > 0 {
      TimesMonotone(m - 1, n - 1, c);
    }
  }

  /** The most a day can cost: the budget's last admitted request, and `k` charges. */
  function Reach(tpd: nat, k: nat, c: nat): int {
    tpd - 1 + Times(k, c)
  }

  /** A day's charges, with what is still in flight, stay within reach; so does every day. */
  ghost predicate Contained(ledger: seq<Entry>, inFlight: nat, day: int, reach: int, c: nat) {
    && TotalOn(ledger, day) + Times(inFlight, c) <= reach
    && forall d :: TotalOn(ledger, d) <= reach
  }

  lemma ChargeIsContained(ledger: seq<Entry>, inFlight: nat, day: int, tokens: nat, reach: int, c: nat)
    requires Contained(ledger, inFlight, day, reach, c) && inFlight > 0 && tokens <= c
    ensures Contained(ledger + [Entry(day, tokens)], inFlight - 1, day, reach, c)
  {
    var more := ledger + [Entry(day, tokens)];
    forall d
      ensures TotalOn(more, d) <= reach
    {
      TotalSnoc(ledger, Entry(day, tokens), d);
    }
    TotalSnoc(ledger, Entry(day, tokens), day);
  }

  /** A new day starts from nothing, with at most `k` requests still to be charged. */
  lemma NewDayIsContained(tpd: nat, a: Account, today: int, day: int, k: nat, c: nat)
    requires tpd > 0 && Faithful(a, today) && Contained(a.ledger, a.inFlight, today, Reach(tpd, k, c), c)
    requires a.inFlight <= k && today <= day
    ensures Contained(a.ledger, a.inFlight, day, Reach(tpd, k, c), c)
  {
    TimesMonotone(a.inFlight, k, c);
    if today < day && a.spent.Some? {
      NoChargesAfter(a.ledger, a.spent.value.day, day);
    }
  }

  lemma ApplyKeepsContained(tpd: nat, a: Account, op: Op, today: int, k: nat, c: nat)
    requires tpd > 0 && Faithful(a, today) && Contained(a.ledger, a.inFlight, today, Reach(tpd, k, c), c)
    requires a.inFlight <= k && today <= op.day && (op.Finish? ==> op.tokens <= c) && Apply(tpd, a, op).inFlight <= k
    ensures var next := Apply(tpd, a, op); Contained(next.ledger, next.inFlight, op.day, Reach(tpd, k, c), c)
  {
    NewDayIsContained(tpd, a, today, op.day, k, c);
    PairAgreesWithLedger(a, today, op.day);
    match op {
      case Arrive(_, _) => TimesMonotone(a.inFlight + 1, if a.inFlight < k then k else a.inFlight + 1, c);
      case Fail(_) =>
      case Finish(day, tokens) =>
        if a.inFlight > 0 && tokens > 0 {
          ChargeIsContained(a.ledger, a.inFlight, day, tokens, Reach(tpd, k, c), c);
        }
    }
  }

  lemma {:induction false} BudgetHoldsFrom(tpd: nat, a: Account, ops: seq<Op>, today: int, k: nat, c: nat, day: int)
    requires tpd > 0 && Faithful(a, today) && Contained(a.ledger, a.inFlight, today, Reach(tpd, k, c), c)
    requires a.inFlight <= k && Orderly(tpd, a, ops, today, k, c)
    ensures TotalOn(Run(tpd, a, ops).ledger, day) <= Reach(tpd, k, c)
    decreases |ops|
  {
    if ops != [] {
      ApplyKeepsFaithful(tpd, a, ops[0], today);
      ApplyKeepsContained(tpd, a, ops[0], today, k, c);
      BudgetHoldsFrom(tpd, Apply(tpd, a, ops[0]), ops[1..], ops[0].day, k, c, day);
    }
  }

  const NEW_ACCOUNT := Account(None, [], 0)

  /** With at most `k` requests between check and charge and each charge at most `c`, no
      day's spend exceeds `tpd - 1 + k * c`. */
  lemma DailySpendIsBounded(tpd: nat, ops: seq<Op>, today: int, k: nat, c: nat, day: int)
    requires tpd > 0 && Orderly(tpd, NEW_ACCOUNT, ops, today, k, c)
    ensures TotalOn(Run(tpd, NEW_ACCOUNT, ops).ledger, day) <= tpd - 1 + k * c
  {
    BudgetHoldsFrom(tpd, NEW_ACCOUNT, ops, today, k, c, day);
    TimesIsProduct(k, c);
  }

  /** The decision on every check, from the whole history: refused for the rate exactly when
      `rpm` requests of the caller were accepted in the last sixty seconds; else for the budget
      exactly when the caller's charges of the day add up to it; and else allowed. */
  lemma DecisionIff(rpm: nat, tpd: nat, times: seq<real>, now: real, ops: seq<Op>, today: int, k: nat, c: nat)
    requires Sorted(times + [now]) && Orderly(tpd, NEW_ACCOUNT, ops, today, k, c)
    requires (if ops == [] then today else ops[|ops| - 1].day) <= DayOf(now)
    ensures var account := Run(tpd, NEW_ACCOUNT, ops);
            var d := DecisionAt(rpm, tpd, WindowAfterAll(rpm, [], times), account.spent, now);
            var recent := |InMinute(Accepted(rpm, [], times), now - 60.0)|;
            && (d.RateLimited? <==> rpm != 0 && recent >= rpm)
            && (d.OverBudget? <==> (rpm == 0 || recent < rpm) && tpd != 0 && TotalOn(account.ledger, DayOf(now)) >= tpd)
  {
    CompactCounterIsExact(tpd, NEW_ACCOUNT, ops, today, k, c, DayOf(now));
    if rpm > 0 {
      WindowIsTheLastMinute(rpm, times, now);
    }
  }

  /** In every run, what `used_today` reports is the full ledger's total for that day. */
  lemma {:induction false} CompactCounterIsExact(tpd: nat, a: Account, ops: seq<Op>, today: int, k: nat, c: nat, day: int)
    requires Faithful(a, today) && Orderly(tpd, a, ops, today, k, c)
    requires (if ops == [] then today else ops[|ops| - 1].day) <= day
    ensures UsedOnDay(Run(tpd, a, ops).spent, day) == TotalOn(Run(tpd, a, ops).ledger, day)
    decreases |ops|
  {
    if ops == [] {
      PairAgreesWithLedger(a, today, day);
    } else {
      ApplyKeepsFaithful(tpd, a, ops[0], today);
      CompactCounterIsExact(tpd, Apply(tpd, a, ops[0]), ops[1..], ops[0].day, k, c, day);
    }
  }
}
