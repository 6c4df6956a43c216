/** The durable limiter (app/gateway/limits.py, PostgresLimiter): counter rows shared by any
    number of replicas, and deleted opportunistically. Each call is one atomic step. */
module FixedWindow {
  import opened Clock

  /** Rows keyed by caller and period. */
  type Rows = map<(string, int), nat>

  function Count(rows: Rows, caller: string, period: int): nat {
    if (caller, period) in rows then rows[(caller, period)] else 0
  }

  datatype Tables = Tables(rate: Rows, daily: Rows)

  datatype Limits = Limits(rpm: nat, tpd: nat)

  datatype Decision = Allowed | RateLimited(retryAfter: int) | OverBudget

  /** `later` is the second clock reading of a charge, taken after its upsert. */
  datatype Op =
    | Check(caller: string, now: real)
    | Charge(caller: string, now: real, later: real, tokens: int)

  function Upserted(rows: Rows, caller: string, period: int, n: nat): Rows {
    rows[(caller, period) := Count(rows, caller, period) + n]
  }

  function DeletedBefore(rows: Rows, period: int): Rows {
    map key | key in rows && key.1 >= period :: rows[key]
  }

  predicate RatePasses(limits: Limits, t: Tables, caller: string, now: real) {
    limits.rpm == 0 || Count(t.rate, caller, MinuteOf(now)) + 1 <= limits.rpm
  }

  /** `max(1, int(60 - (now % 60)) + 1)`. */
  function RetryAfter(now: real): int {
    var wait := (60.0 - (now - 60.0 * MinuteOf(now) as real)).Floor + 1;
    if wait < 1 then 1 else wait
  }

  function DecisionAt(limits: Limits, t: Tables, caller: string, now: real): Decision {
    if !RatePasses(limits, t, caller, now) then RateLimited(RetryAfter(now))
    else if limits.tpd != 0 && Count(t.daily, caller, DayOf(now)) >= limits.tpd then OverBudget
    else Allowed
  }

  /** The tables after a step; with `cleanup` off, every row is kept for ever. */
  function Apply(limits: Limits, t: Tables, op: Op, cleanup: bool): Tables {
    match op
    case Check(caller, now) =>
      if limits.rpm == 0 then t else t.(rate := Upserted(t.rate, caller, MinuteOf(now), 1))
    case Charge(caller, now, later, tokens) =>
      if limits.tpd == 0 || tokens <= 0 then t
      else
        var daily := Upserted(t.daily, caller, DayOf(now), tokens);
        if cleanup then Tables(DeletedBefore(t.rate, MinuteOf(later)), DeletedBefore(daily, DayOf(now) - 1))
        else t.(daily := daily)
  }

  class DurableLimiter {
    const limits: Limits
    var rate: Rows
    var daily: Rows

    ghost function Value(): Tables
      reads this
    {
      Tables(rate, daily)
    }

    constructor (limits: Limits)
      ensures this.limits == limits && Value() == Tables(map[], map[])
    {
      this.limits, rate, daily := limits, map[], map[];
    }

    method CheckRequest(caller: string, now: real) returns (d: Decision)
      modifies this
      ensures d == DecisionAt(limits, old(Value()), caller, now)
      ensures Value() == Apply(limits, old(Value()), Check(caller, now), true)
    {
      if limits.rpm != 0 {
        var minute := MinuteOf(now);
        rate := rate[(caller, minute) := (if (caller, minute) in rate then rate[(caller, minute)] else 0) + 1];
        if rate[(caller, minute)] > limits.rpm {
          return RateLimited(RetryAfter(now));
        }
      }
      if limits.tpd != 0 {
        var row := (caller, DayOf(now));
        if row in daily && daily[row] >= limits.tpd {
          return OverBudget;
        }
      }
      return Allowed;
    }

    method ChargeTokens(caller: string, now: real, later: real, tokens: int)
      modifies this
      ensures Value() == Apply(limits, old(Value()), Charge(caller, now, later, tokens), true)
    {
      if limits.tpd == 0 || tokens <= 0 {
        return;
      }
      var day := DayOf(now);
      daily := daily[(caller, day) := (if (caller, day) in daily then daily[(caller, day)] else 0) + tokens];
      rate := DeletedBefore(rate, MinuteOf(later));
      daily := DeletedBefore(daily, day - 1);
    }
  }

  // ---- Cleanup changes nothing ------------------------------------------------------------

  function Decisions(limits: Limits, t: Tables, ops: seq<Op>, cleanup: bool): seq<Decision>
    decreases |ops|
  {
    if ops == [] then []
    else
      var rest := Decisions(limits, Apply(limits, t, ops[0], cleanup), ops[1..], cleanup);
      if ops[0].Check? then [DecisionAt(limits, t, ops[0].caller, ops[0].now)] + rest else rest
  }

  function Max(a: int, b: int): int {
    if a > b then a else b
  }

  /** The oldest minute and day whose rows are still there after a step. */
  function MinuteCut(limits: Limits, cut: int, op: Op): int {
    if op.Charge? && limits.tpd != 0 && op.tokens > 0 then Max(cut, MinuteOf(op.later)) else cut
  }

  function DayCut(limits: Limits, cut: int, op: Op): int {
    if op.Charge? && limits.tpd != 0 && op.tokens > 0 then Max(cut, DayOf(op.now) - 1) else cut
  }

  /** No call is for a period that an earlier cleanup has passed. */
  predicate NotBehind(limits: Limits, ops: seq<Op>, minute: int, day: int)
    decreases |ops|
  {
    ops == [] ||
    (&& (ops[0].Check? ==> minute <= MinuteOf(ops[0].now))
     && day <= DayOf(ops[0].now)
     && NotBehind(limits, ops[1..], MinuteCut(limits, minute, ops[0]), DayCut(limits, day, ops[0])))
  }

  /** Clock readings that never go backwards, across all replicas, are never behind. */
  predicate ClockForward(ops: seq<Op>, now: real)
    decreases |ops|
  {
    ops == [] ||
    (&& now <= ops[0].now && (ops[0].Charge? ==> ops[0].now <= ops[0].later)
     && ClockForward(ops[1..], if ops[0].Charge? then ops[0].later else ops[0].now))
  }

  lemma FloorMonotone(a: real, b: real)
    requires a <= b
    ensures MinuteOf(a) <= MinuteOf(b) && DayOf(a) <= DayOf(b)
  {
    assert a / 60.0 <= b / 60.0 && a / 86400.0 <= b / 86400.0;
  }

  lemma {:induction false} ForwardIsNotBehind(limits: Limits, ops: seq<Op>, now: real, minute: int, day: int)
    requires ClockForward(ops, now) && minute <= MinuteOf(now) && day <= DayOf(now)
    ensures NotBehind(limits, ops, minute, day)
    decreases |ops|
  {
    if ops != [] {
      var next := if ops[0].Charge? then ops[0].later else ops[0].now;
      FloorMonotone(now, ops[0].now);
      FloorMonotone(ops[0].now, next);
      ForwardIsNotBehind(limits, ops[1..], next, MinuteCut(limits, minute, ops[0]), DayCut(limits, day, ops[0]));
    }
  }

  /** The two tables agree on every period from the cut on. */
  ghost predicate AgreeFrom(a: Rows, b: Rows, cut: int) {
    forall key | (key in a || key in b) && key.1 >= cut :: Count(a, key.0, key.1) == Count(b, key.0, key.1)
  }

  lemma AgreeCount(a: Rows, b: Rows, cut: int, caller: string, period: int)
    requires AgreeFrom(a, b, cut) && cut <= period
    ensures Count(a, caller, period) == Count(b, caller, period)
  {
    var key := (caller, period);
    if key in a || key in b {
      assert Count(a, key.0, key.1) == Count(b, key.0, key.1);
    }
  }

  lemma AgreeUpsert(a: Rows, b: Rows, cut: int, caller: string, period: int, n: nat)
    requires AgreeFrom(a, b, cut) && cut <= period
    ensures AgreeFrom(Upserted(a, caller, period, n), Upserted(b, caller, period, n), cut)
  {
    AgreeCount(a, b, cut, caller, period);
    var a', b' := Upserted(a, caller, period, n), Upserted(b, caller, period, n);
    forall key | (key in a' || key in b') && key.1 >= cut
      ensures Count(a', key.0, key.1) == Count(b', key.0, key.1)
    {
      AgreeCount(a, b, cut, key.0, key.1);
    }
  }

  lemma AgreeDelete(a: Rows, b: Rows, cut: int, period: int)
    requires AgreeFrom(a, b, cut)
    ensures AgreeFrom(DeletedBefore(a, period), b, Max(cut, period))
  {
    var a' := DeletedBefore(a, period);
    forall key | (key in a' || key in b) && key.1 >= Max(cut, period)
      ensures Count(a', key.0, key.1) == Count(b, key.0, key.1)
    {
      AgreeCount(a, b, cut, key.0, key.1);
    }
  }

  lemma CheckAgrees(limits: Limits, t: Tables, kept: Tables, caller: string, now: real, minute: int, day: int)
    requires AgreeFrom(t.rate, kept.rate, minute) && AgreeFrom(t.daily, kept.daily, day)
    requires minute <= MinuteOf(now) && day <= DayOf(now)
    ensures DecisionAt(limits, t, caller, now) == DecisionAt(limits, kept, caller, now)
    ensures AgreeFrom(Upserted(t.rate, caller, MinuteOf(now), 1), Upserted(kept.rate, caller, MinuteOf(now), 1), minute)
  {
    AgreeCount(t.rate, kept.rate, minute, caller, MinuteOf(now));
    AgreeCount(t.daily, kept.daily, day, caller, DayOf(now));
    AgreeUpsert(t.rate, kept.rate, minute, caller, MinuteOf(now), 1);
  }

  lemma ChargeAgrees(t: Tables, kept: Tables, op: Op, minute: int, day: int)
    requires op.Charge? && op.tokens > 0 && day <= DayOf(op.now)
    requires AgreeFrom(t.rate, kept.rate, minute) && AgreeFrom(t.daily, kept.daily, day)
    ensures AgreeFrom(DeletedBefore(t.rate, MinuteOf(op.later)), kept.rate, Max(minute, MinuteOf(op.later)))
    ensures AgreeFrom(DeletedBefore(Upserted(t.daily, op.caller, DayOf(op.now), op.tokens), DayOf(op.now) - 1),
                      Upserted(kept.daily, op.caller, DayOf(op.now), op.tokens), Max(day, DayOf(op.now) - 1))
  {
    AgreeUpsert(t.daily, kept.daily, day, op.caller, DayOf(op.now), op.tokens);
    AgreeDelete(t.rate, kept.rate, minute, MinuteOf(op.later));
    AgreeDelete(Upserted(t.daily, op.caller, DayOf(op.now), op.tokens),
                Upserted(kept.daily, op.caller, DayOf(op.now), op.tokens), day, DayOf(op.now) - 1);
  }

  /** Deleting rows never changes a decision, compared with keeping every row. */
  lemma {:induction false} CleanupIsInvisible(limits: Limits, t: Tables, kept: Tables, ops: seq<Op>, minute: int, day: int)
    requires AgreeFrom(t.rate, kept.rate, minute) && AgreeFrom(t.daily, kept.daily, day)
    requires NotBehind(limits, ops, minute, day)
    ensures Decisions(limits, t, ops, true) == Decisions(limits, kept, ops, false)
    decreases |ops|
  {
    if ops != [] {
      var op := ops[0];
      if op.Check? {
        CheckAgrees(limits, t, kept, op.caller, op.now, minute, day);
      } else if limits.tpd != 0 && op.tokens > 0 {
        ChargeAgrees(t, kept, op, minute, day);
      }
      CleanupIsInvisible(limits, Apply(limits, t, op, true), Apply(limits, kept, op, false), ops[1..],
                         MinuteCut(limits, minute, op), DayCut(limits, day, op));
    }
  }

  /** For every sequence of calls on forward clocks, from empty tables. */
  lemma CleanupNeverChangesADecision(limits: Limits, ops: seq<Op>, start: real)
    requires ClockForward(ops, start)
    ensures var empty := Tables(map[], map[]);
            Decisions(limits, empty, ops, true) == Decisions(limits, empty, ops, false)
  {
    ForwardIsNotBehind(limits, ops, start, MinuteOf(start), DayOf(start));
    CleanupIsInvisible(limits, Tables(map[], map[]), Tables(map[], map[]), ops, MinuteOf(start), DayOf(start));
  }

  // ---- Exactly when a decision changes ---------------------------------------------------

  function TablesAfter(limits: Limits, t: Tables, ops: seq<Op>, cleanup: bool): Tables
    decreases |ops|
  {
    if ops == [] then t else TablesAfter(limits, Apply(limits, t, ops[0], cleanup), ops[1..], cleanup)
  }

  /** The oldest minute, and day, whose rows are still there after a run. */
  function MinuteCutAfter(limits: Limits, cut: int, ops: seq<Op>): int
    decreases |ops|
  {
    if ops == [] then cut else MinuteCutAfter(limits, MinuteCut(limits, cut, ops[0]), ops[1..])
  }

  function DayCutAfter(limits: Limits, cut: int, ops: seq<Op>): int
    decreases |ops|
  {
    if ops == [] then cut else DayCutAfter(limits, DayCut(limits, cut, ops[0]), ops[1..])
  }

  /** Deleting rows never adds to a count. */
  ghost predicate Below(a: Rows, b: Rows) {
    forall key | key in a || key in b :: Count(a, key.0, key.1) <= Count(b, key.0, key.1)
  }

  lemma BelowCount(a: Rows, b: Rows, caller: string, period: int)
    requires Below(a, b)
    ensures Count(a, caller, period) <= Count(b, caller, period)
  {
    var key := (caller, period);
    if key in a || key in b {
      assert Count(a, key.0, key.1) <= Count(b, key.0, key.1);
    }
  }

  /** What a table with cleanup owes to the one without, whatever the clocks did: the same
      counts from the cut on, and no higher ones before it. */
  ghost predicate Cleaned(a: Rows, b: Rows, cut: int) {
    AgreeFrom(a, b, cut) && Below(a, b)
  }

  lemma UpsertKeepsCleaned(a: Rows, b: Rows, cut: int, caller: string, period: int, n: nat)
    requires Cleaned(a, b, cut)
    ensures Cleaned(Upserted(a, caller, period, n), Upserted(b, caller, period, n), cut)
  {
    var a', b' := Upserted(a, caller, period, n), Upserted(b, caller, period, n);
    forall key | key in a' || key in b'
      ensures Count(a', key.0, key.1) <= Count(b', key.0, key.1)
      ensures key.1 >= cut ==> Count(a', key.0, key.1) == Count(b', key.0, key.1)
    {
      BelowCount(a, b, key.0, key.1);
      if key.1 >= cut {
        AgreeCount(a, b, cut, key.0, key.1);
      }
    }
  }

  lemma DeleteKeepsCleaned(a: Rows, b: Rows, cut: int, period: int)
    requires Cleaned(a, b, cut)
    ensures Cleaned(DeletedBefore(a, period), b, Max(cut, period))
  {
    AgreeDelete(a, b, cut, period);
    var a' := DeletedBefore(a, period);
    forall key | key in a' || key in b
      ensures Count(a', key.0, key.1) <= Count(b, key.0, key.1)
    {
      BelowCount(a, b, key.0, key.1);
    }
  }

  lemma StepKeepsCleaned(limits: Limits, t: Tables, kept: Tables, op: Op, minute: int, day: int)
    requires Cleaned(t.rate, kept.rate, minute) && Cleaned(t.daily, kept.daily, day)
    ensures var t', kept' := Apply(limits, t, op, true), Apply(limits, kept, op, false);
            && Cleaned(t'.rate, kept'.rate, MinuteCut(limits, minute, op))
            && Cleaned(t'.daily, kept'.daily, DayCut(limits, day, op))
  {
    match op {
      case Check(caller, now) => UpsertKeepsCleaned(t.rate, kept.rate, minute, caller, MinuteOf(now), 1);
      case Charge(caller, now, later, tokens) =>
        if limits.tpd != 0 && tokens > 0 {
          UpsertKeepsCleaned(t.daily, kept.daily, day, caller, DayOf(now), tokens);
          DeleteKeepsCleaned(t.rate, kept.rate, minute, MinuteOf(later));
          DeleteKeepsCleaned(Upserted(t.daily, caller, DayOf(now), tokens),
                             Upserted(kept.daily, caller, DayOf(now), tokens), day, DayOf(now) - 1);
        }
    }
  }

  lemma {:induction false} RunKeepsCleaned(limits: Limits, t: Tables, kept: Tables, ops: seq<Op>, minute: int, day: int)
    requires Cleaned(t.rate, kept.rate, minute) && Cleaned(t.daily, kept.daily, day)
    ensures var t', kept' := TablesAfter(limits, t, ops, true), TablesAfter(limits, kept, ops, false);
            && Cleaned(t'.rate, kept'.rate, MinuteCutAfter(limits, minute, ops))
            && Cleaned(t'.daily, kept'.daily, DayCutAfter(limits, day, ops))
    decreases |ops|
  {
    if ops != [] {
      StepKeepsCleaned(limits, t, kept, ops[0], minute, day);
      RunKeepsCleaned(limits, Apply(limits, t, ops[0], true), Apply(limits, kept, ops[0], false), ops[1..],
                      MinuteCut(limits, minute, ops[0]), DayCut(limits, day, ops[0]));
    }
  }

  /** The period is behind the cut, and the count has crossed the limit only where rows are
      kept: with cleanup there is room that there should not be. */
  predicate RoomFromCleanup(rows: Rows, kept: Rows, cut: int, caller: string, period: int, limit: nat) {
    period < cut && Count(rows, caller, period) < limit <= Count(kept, caller, period)
  }

  /** After every run, on any clocks: cleanup changes the decision on a check if and only if
      the check is for a period behind an earlier cleanup and the deletion made room there,
      for its minute, or, once the rate passes, for its day. It only ever lets more through. */
  lemma CleanupChangesADecisionIff(limits: Limits, ops: seq<Op>, caller: string, now: real, minute: int, day: int)
    ensures var empty := Tables(map[], map[]);
            var t, kept := TablesAfter(limits, empty, ops, true), TablesAfter(limits, empty, ops, false);
            var lateMinute := limits.rpm != 0 && RoomFromCleanup(
                  t.rate, kept.rate, MinuteCutAfter(limits, minute, ops), caller, MinuteOf(now), limits.rpm);
            var lateDay := limits.tpd != 0 && RatePasses(limits, kept, caller, now) && RoomFromCleanup(
                  t.daily, kept.daily, DayCutAfter(limits, day, ops), caller, DayOf(now), limits.tpd);
            && (DecisionAt(limits, t, caller, now) != DecisionAt(limits, kept, caller, now) <==> lateMinute || lateDay)
            && (DecisionAt(limits, kept, caller, now).Allowed? ==> DecisionAt(limits, t, caller, now).Allowed?)
  {
    var empty := Tables(map[], map[]);
    RunKeepsCleaned(limits, empty, empty, ops, minute, day);
    var t, kept := TablesAfter(limits, empty, ops, true), TablesAfter(limits, empty, ops, false);
    LateCheckIff(limits, t, kept, caller, now, MinuteCutAfter(limits, minute, ops), DayCutAfter(limits, day, ops));
  }

  lemma LateCheckIff(limits: Limits, t: Tables, kept: Tables, caller: string, now: real, minute: int, day: int)
    requires Cleaned(t.rate, kept.rate, minute) && Cleaned(t.daily, kept.daily, day)
    ensures var lateMinute := limits.rpm != 0 &&
                  RoomFromCleanup(t.rate, kept.rate, minute, caller, MinuteOf(now), limits.rpm);
            var lateDay := limits.tpd != 0 && RatePasses(limits, kept, caller, now) &&
                  RoomFromCleanup(t.daily, kept.daily, day, caller, DayOf(now), limits.tpd);
            && (DecisionAt(limits, t, caller, now) != DecisionAt(limits, kept, caller, now) <==> lateMinute || lateDay)
            && (DecisionAt(limits, kept, caller, now).Allowed? ==> DecisionAt(limits, t, caller, now).Allowed?)
  {
    BelowCount(t.rate, kept.rate, caller, MinuteOf(now));
    BelowCount(t.daily, kept.daily, caller, DayOf(now));
    if minute <= MinuteOf(now) {
      AgreeCount(t.rate, kept.rate, minute, caller, MinuteOf(now));
    }
    if day <= DayOf(now) {
      AgreeCount(t.daily, kept.daily, day, caller, DayOf(now));
    }
  }

  /** The condition can be met: a replica whose clock is half a minute behind has its caller's
      counter deleted by another replica's charge, and lets a second request through. */
  lemma CleanupHelpsAClockThatIsBehind()
    ensures var limits, empty := Limits(1, 1000), Tables(map[], map[]);
            var ops := [Check("a", 10.0), Charge("b", 60.0, 60.0, 5), Check("a", 30.0)];
            && Decisions(limits, empty, ops, true) == [Allowed, Allowed]
            && Decisions(limits, empty, ops, false) == [Allowed, RateLimited(31)]
  {
    var limits, empty := Limits(1, 1000), Tables(map[], map[]);
    var a, b, c := Check("a", 10.0), Charge("b", 60.0, 60.0, 5), Check("a", 30.0);
    assert [a, b, c][1..] == [b, c] && [b, c][1..] == [c] && [c][1..] == [];
    TwoChecks(limits, empty, a, b, c, true);
    TwoChecks(limits, empty, a, b, c, false);
    assert MinuteOf(10.0) == 0 && MinuteOf(30.0) == 0 && MinuteOf(60.0) == 1 && DayOf(60.0) == 0;
    assert DayOf(10.0) == 0 && DayOf(30.0) == 0;
    assert Apply(limits, empty, a, true).rate == map[("a", 0) := 1];
    assert DeletedBefore(map[("a", 0) := 1], 1) == map[];
  }

  lemma TwoChecks(limits: Limits, t: Tables, a: Op, b: Op, c: Op, cleanup: bool)
    requires a.Check? && b.Charge? && c.Check?
    ensures var t1 := Apply(limits, t, a, cleanup);
            var t2 := Apply(limits, t1, b, cleanup);
            Decisions(limits, t, [a, b, c], cleanup)
            == [DecisionAt(limits, t, a.caller, a.now), DecisionAt(limits, t2, c.caller, c.now)]
  {
    var t1 := Apply(limits, t, a, cleanup);
    var t2 := Apply(limits, t1, b, cleanup);
    assert [a, b, c][1..] == [b, c] && [b, c][1..] == [c] && [c][1..] == [];
    assert Decisions(limits, Apply(limits, t2, c, cleanup), [], cleanup) == [];
    assert Decisions(limits, t2, [c], cleanup) == [DecisionAt(limits, t2, c.caller, c.now)];
    assert Decisions(limits, t1, [b, c], cleanup) == Decisions(limits, t2, [c], cleanup);
  }

  // ---- Every decision, from the history -----------------------------------------------------

  /** The checks of a caller in a minute so far, refused ones too. */
  function ChecksIn(ops: seq<Op>, caller: string, minute: int): nat {
    if ops == [] then 0
    else
      var e := ops[|ops| - 1];
      ChecksIn(ops[..|ops| - 1], caller, minute)
      + if e.Check? && e.caller == caller && MinuteOf(e.now) == minute then 1 else 0
  }

  /** The tokens charged to a caller on a day so far. */
  function ChargedOn(ops: seq<Op>, caller: string, day: int): nat {
    if ops == [] then 0
    else
      var e := ops[|ops| - 1];
      ChargedOn(ops[..|ops| - 1], caller, day)
      + if e.Charge? && e.caller == caller && e.tokens > 0 && DayOf(e.now) == day then e.tokens else 0
  }

  lemma {:induction false} TablesSnoc(limits: Limits, t: Tables, front: seq<Op>, op: Op, cleanup: bool)
    ensures TablesAfter(limits, t, front + [op], cleanup) == Apply(limits, TablesAfter(limits, t, front, cleanup), op, cleanup)
    decreases |front|
  {
    var all := front + [op];
    if front == [] {
      assert all[1..] == [];
    } else {
      assert all[1..] == front[1..] + [op];
      TablesSnoc(limits, Apply(limits, t, front[0], cleanup), front[1..], op, cleanup);
    }
  }

  /** Without cleanup the rows count what happened. */
  lemma {:induction false} RowsCountTheHistory(limits: Limits, ops: seq<Op>, caller: string, period: int)
    ensures var t := TablesAfter(limits, Tables(map[], map[]), ops, false);
            && (limits.rpm > 0 ==> Count(t.rate, caller, period) == ChecksIn(ops, caller, period))
            && (limits.tpd > 0 ==> Count(t.daily, caller, period) == ChargedOn(ops, caller, period))
  {
    if ops != [] {
      var front, op := ops[..|ops| - 1], ops[|ops| - 1];
      RowsCountTheHistory(limits, front, caller, period);
      assert ops == front + [op];
      TablesSnoc(limits, Tables(map[], map[]), front, op, false);
    }
  }

  /** On forward clocks the last clock reading is no later than now, so nothing is behind. */
  lemma {:induction false} CutsAreInThePast(limits: Limits, ops: seq<Op>, start: real, now: real, minute: int, day: int)
    requires ClockForward(ops + [Check("", now)], start) && minute <= MinuteOf(start) && day <= DayOf(start)
    ensures MinuteCutAfter(limits, minute, ops) <= MinuteOf(now) && DayCutAfter(limits, day, ops) <= DayOf(now)
    decreases |ops|
  {
    var all := ops + [Check("", now)];
    if ops == [] {
      FloorMonotone(start, now);
    } else {
      var next := if ops[0].Charge? then ops[0].later else ops[0].now;
      assert all[1..] == ops[1..] + [Check("", now)];
      FloorMonotone(start, ops[0].now);
      FloorMonotone(ops[0].now, next);
      CutsAreInThePast(limits, ops[1..], next, now, MinuteCut(limits, minute, ops[0]), DayCut(limits, day, ops[0]));
    }
  }

  /** With any number of replicas on forward clocks, deletions and all: a check is refused for
      the rate exactly when the caller has made `rpm` checks in its minute already; else for
      the budget exactly when the caller's charges of the day add up to it; else allowed. */
  lemma DecisionIff(limits: Limits, ops: seq<Op>, start: real, caller: string, now: real)
    requires ClockForward(ops + [Check("", now)], start)
    ensures var d := DecisionAt(limits, TablesAfter(limits, Tables(map[], map[]), ops, true), caller, now);
            var checks := ChecksIn(ops, caller, MinuteOf(now));
            && (d.RateLimited? <==> limits.rpm != 0 && checks >= limits.rpm)
            && (d.OverBudget? <==> (limits.rpm == 0 || checks < limits.rpm)
                                   && limits.tpd != 0 && ChargedOn(ops, caller, DayOf(now)) >= limits.tpd)
  {
    CleanupChangesADecisionIff(limits, ops, caller, now, MinuteOf(start), DayOf(start));
    CutsAreInThePast(limits, ops, start, now, MinuteOf(start), DayOf(start));
    RowsCountTheHistory(limits, ops, caller, MinuteOf(now));
    RowsCountTheHistory(limits, ops, caller, DayOf(now));
  }

  /** The advice given with a refusal lies in 1..61; a check that comes that long after it is in
      the next minute, and one that comes a second earlier, or any sooner, is not past its
      start. */
  lemma WaitingAsToldReachesTheNextMinute(now: real)
    ensures 1 <= RetryAfter(now) <= 61
    ensures MinuteOf(now + RetryAfter(now) as real) == MinuteOf(now) + 1
    ensures now + RetryAfter(now) as real - 1.0 <= 60.0 * (MinuteOf(now) + 1) as real
  {
    PeriodsHoldTheirReadings(now);
    var rest := 60.0 - (now - 60.0 * MinuteOf(now) as real);
    assert 0.0 < rest <= 60.0 && rest < rest.Floor as real + 1.0 <= rest + 1.0;
    MinuteIs(now + RetryAfter(now) as real, MinuteOf(now) + 1);
  }

  lemma MinuteIs(now: real, minute: int)
    requires 60.0 * minute as real <= now < 60.0 * (minute + 1) as real
    ensures MinuteOf(now) == minute
  {
    PeriodsHoldTheirReadings(now);
  }

  // ---- How many requests pass ---------------------------------------------------------------

  /** The checks of a caller within `[from, to]` that pass the rate limit. */
  function PassedBetween(limits: Limits, t: Tables, ops: seq<Op>, caller: string, from: real, to: real): nat
    decreases |ops|
  {
    if ops == [] then 0
    else
      (if ops[0].Check? && ops[0].caller == caller && from <= ops[0].now <= to
          && RatePasses(limits, t, caller, ops[0].now) then 1 else 0)
      + PassedBetween(limits, Apply(limits, t, ops[0], true), ops[1..], caller, from, to)
  }

  function PassedInMinute(limits: Limits, t: Tables, ops: seq<Op>, caller: string, minute: int): nat
    decreases |ops|
  {
    if ops == [] then 0
    else
      (if ops[0].Check? && ops[0].caller == caller && MinuteOf(ops[0].now) == minute
          && RatePasses(limits, t, caller, ops[0].now) then 1 else 0)
      + PassedInMinute(limits, Apply(limits, t, ops[0], true), ops[1..], caller, minute)
  }

  /** The row of a minute counts down what may still pass in it, cleanup or not. */
  lemma {:induction false} RowBoundsMinute(limits: Limits, t: Tables, ops: seq<Op>, caller: string, m: int, minute: int, day: int)
    requires limits.rpm > 0 && NotBehind(limits, ops, minute, day)
    ensures m < minute ==> PassedInMinute(limits, t, ops, caller, m) == 0
    ensures PassedInMinute(limits, t, ops, caller, m)
         <= if Count(t.rate, caller, m) >= limits.rpm then 0 else limits.rpm - Count(t.rate, caller, m)
    decreases |ops|
  {
    if ops != [] {
      var next := Apply(limits, t, ops[0], true);
      RowBoundsMinute(limits, next, ops[1..], caller, m, MinuteCut(limits, minute, ops[0]), DayCut(limits, day, ops[0]));
    }
  }

  lemma MinutesOf60Seconds(t: real, now: real)
    requires t <= now <= t + 60.0
    ensures MinuteOf(now) == MinuteOf(t) || MinuteOf(now) == MinuteOf(t) + 1
  {
    assert t / 60.0 <= now / 60.0 <= t / 60.0 + 1.0;
  }

  lemma {:induction false} SixtySecondsAreTwoMinutes(limits: Limits, t: Tables, ops: seq<Op>, caller: string, from: real)
    ensures PassedBetween(limits, t, ops, caller, from, from + 60.0)
         <= PassedInMinute(limits, t, ops, caller, MinuteOf(from)) + PassedInMinute(limits, t, ops, caller, MinuteOf(from) + 1)
    decreases |ops|
  {
    if ops != [] {
      SixtySecondsAreTwoMinutes(limits, Apply(limits, t, ops[0], true), ops[1..], caller, from);
      if from <= ops[0].now <= from + 60.0 {
        MinutesOf60Seconds(from, ops[0].now);
      }
    }
  }

  /** With any number of replicas on forward clocks: at most `rpm` requests of a caller pass
      in a minute, hence at most twice that in any sixty seconds. */
  lemma AtMostTwiceRpmPerSixtySeconds(limits: Limits, ops: seq<Op>, start: real, caller: string, m: int, from: real)
    requires limits.rpm > 0 && ClockForward(ops, start)
    ensures var empty := Tables(map[], map[]);
            && PassedInMinute(limits, empty, ops, caller, m) <= limits.rpm
            && PassedBetween(limits, empty, ops, caller, from, from + 60.0) <= 2 * limits.rpm
  {
    var empty := Tables(map[], map[]);
    ForwardIsNotBehind(limits, ops, start, MinuteOf(start), DayOf(start));
    RowBoundsMinute(limits, empty, ops, caller, m, MinuteOf(start), DayOf(start));
    RowBoundsMinute(limits, empty, ops, caller, MinuteOf(from), MinuteOf(start), DayOf(start));
    RowBoundsMinute(limits, empty, ops, caller, MinuteOf(from) + 1, MinuteOf(start), DayOf(start));
    SixtySecondsAreTwoMinutes(limits, empty, ops, caller, from);
  }
}
