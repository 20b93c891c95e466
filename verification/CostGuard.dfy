/**
 The cost guard.  Its specification keeps the whole ledger of paid costs and computes
 every total from it; the object keeps running totals, per-key sums and a bounded list
 of entries, and is proved to agree with the ledger in every reachable state.
 Amounts are exact; the current date is an argument.
 */
module CostGuard {
  import opened Prelude

  const MAX_ENTRIES := 10000
  const MAX_ALERTS := 100

  datatype Date = Date(year: int, month: int, day: int)

  function MonthOf(d: Date): (int, int) {
    (d.year, d.month)
  }

  datatype Budget = Budget(daily: real, monthly: real, alertPercent: real, autoThrottle: bool, zeroCost: bool)

  datatype Request = Request(today: Date, category: string, provider: string, amount: real)

  datatype Alert = ZeroCostViolation | DailyBudgetWarning | ProviderThrottled

  // ---- The ledger ----

  /** `log[dayStart..]` are the costs of the current day, `log[monthStart..]` those of the current month. */
  datatype Ledger = Ledger(
    log: seq<Request>, dayStart: nat, monthStart: nat, date: Date, throttled: set<string>, alerts: seq<Alert>,
    total: nat, free: nat, blocked: nat)

  function Sum(log: seq<Request>): real {
    if log == [] then 0.0 else Sum(log[..|log| - 1]) + log[|log| - 1].amount
  }

  ghost predicate WellFormed(l: Ledger) {
    && l.monthStart <= l.dayStart <= |l.log|
    && forall i :: 0 <= i < |l.log| ==> l.log[i].amount > 0.0
  }

  function From(log: seq<Request>, start: nat): seq<Request> {
    if start <= |log| then log[start..] else []
  }

  function Daily(l: Ledger): real {
    Sum(From(l.log, l.dayStart))
  }

  function Monthly(l: Ledger): real {
    Sum(From(l.log, l.monthStart))
  }

  function Opened(today: Date): Ledger {
    Ledger([], 0, 0, today, {}, [], 0, 0, 0)
  }

  /** The period change at the start of every request. */
  function Rolled(l: Ledger, today: Date): Ledger {
    var l1 := if today != l.date then l.(dayStart := |l.log|, throttled := {}) else l;
    var l2 := if MonthOf(today) != MonthOf(l.date) then l1.(monthStart := |l.log|) else l1;
    l2.(date := today)
  }

  function Alerted(alerts: seq<Alert>, a: Alert): seq<Alert> {
    Newest(alerts + [a], MAX_ALERTS)
  }

  function Refused(b: Budget, l: Ledger, provider: string): Ledger {
    if b.autoThrottle then
      l.(throttled := l.throttled + {provider}, alerts := Alerted(l.alerts, ProviderThrottled),
        blocked := l.blocked + 1)
    else l.(blocked := l.blocked + 1)
  }

  /** Whether a rolled ledger lets a positive amount through. */
  predicate Affordable(b: Budget, l: Ledger, r: Request)
  {
    && r.provider !in l.throttled && !b.zeroCost
    && (b.daily > 0.0 ==> Daily(l) + r.amount <= b.daily)
    && (b.monthly > 0.0 ==> Monthly(l) + r.amount <= b.monthly)
  }

  function Percent(part: real, whole: real): real
    requires whole != 0.0
  {
    part / whole * 100.0
  }

  predicate Warns(b: Budget, l: Ledger, r: Request)
  {
    b.daily > 0.0 && Percent(Daily(l) + r.amount, b.daily) >= b.alertPercent
  }

  /** A positive amount from a provider that is not throttled, outside zero-cost mode. */
  function Charged(b: Budget, l: Ledger, r: Request): (Ledger, bool)
  {
    if b.daily > 0.0 && Daily(l) + r.amount > b.daily then (Refused(b, l, r.provider), false)
    else
      var w := if Warns(b, l, r) then l.(alerts := Alerted(l.alerts, DailyBudgetWarning)) else l;
      if b.monthly > 0.0 && Monthly(l) + r.amount > b.monthly then (Refused(b, w, r.provider), false)
      else (w.(log := w.log + [r]), true)
  }

  function Recorded(b: Budget, l0: Ledger, r: Request): (Ledger, bool) {
    var l1 := Rolled(l0, r.today);
    var l := l1.(total := l1.total + 1);
    if r.amount <= 0.0 then (l.(free := l.free + 1), true)
    else if r.provider in l.throttled then (l.(blocked := l.blocked + 1), false)
    else if b.zeroCost then (l.(blocked := l.blocked + 1, alerts := Alerted(l.alerts, ZeroCostViolation)), false)
    else Charged(b, l, r)
  }

  // ---- What holds of every ledger ----

  /** Totals stay within their limits, every request is counted once, and zero-cost mode spends nothing. */
  ghost predicate Sound(b: Budget, l: Ledger) {
    && WellFormed(l)
    && (b.daily > 0.0 ==> Daily(l) <= b.daily)
    && (b.monthly > 0.0 ==> Monthly(l) <= b.monthly)
    && l.total == l.free + |l.log| + l.blocked
    && (b.zeroCost ==> l.log == [])
    && |l.alerts| <= MAX_ALERTS
  }

  lemma SumSnoc(log: seq<Request>, r: Request)
    ensures Sum(log + [r]) == Sum(log) + r.amount
  {
    assert (log + [r])[..|log|] == log;
  }

  lemma {:induction false} SumSuffix(log: seq<Request>, i: nat)
    requires i <= |log| && forall j :: 0 <= j < |log| ==> log[j].amount > 0.0
    ensures 0.0 <= Sum(log[i..]) <= Sum(log)
    decreases |log|
  {
    if i < |log| {
      var init := log[..|log| - 1];
      SumSuffix(init, i);
      assert log[i..][..|log[i..]| - 1] == init[i..];
    } else if log != [] {
      SumSuffix(log[..|log| - 1], |log| - 1);
    }
  }

  /** In every well-formed ledger the nested totals are ordered. */
  lemma NestedTotals(l: Ledger)
    requires WellFormed(l)
    ensures 0.0 <= Daily(l) <= Monthly(l) <= Sum(l.log)
  {
    hide Sum;
    SumSuffix(l.log, l.monthStart);
    SumSuffix(l.log[l.monthStart..], l.dayStart - l.monthStart);
    assert l.log[l.monthStart..][l.dayStart - l.monthStart..] == l.log[l.dayStart..];
  }

  /** A month change is always a day change, so the month never starts after the day. */
  lemma RolledTotals(l: Ledger, today: Date)
    requires WellFormed(l)
    ensures var l' := Rolled(l, today);
      && Daily(l') == (if today != l.date then 0.0 else Daily(l))
      && Monthly(l') == (if MonthOf(today) != MonthOf(l.date) then 0.0 else Monthly(l))
      && WellFormed(l') && l'.date == today && l'.throttled == (if today != l.date then {} else l.throttled)
      && l'.log == l.log && l'.alerts == l.alerts && l'.total == l.total && l'.free == l.free && l'.blocked == l.blocked
  {
  }

  lemma SoundIsWellFormed(b: Budget, l: Ledger)
    requires Sound(b, l)
    ensures WellFormed(l)
  {
  }

  lemma RolledSound(b: Budget, l: Ledger, today: Date)
    requires Sound(b, l)
    ensures Sound(b, Rolled(l, today))
  {
    NestedTotals(l);
  }

  lemma AlertsBounded()
    ensures forall alerts, a :: |Alerted(alerts, a)| <= MAX_ALERTS
  {
  }

  lemma AppendTotals(l: Ledger, r: Request)
    requires WellFormed(l) && r.amount > 0.0
    ensures var l' := l.(log := l.log + [r]);
      WellFormed(l') && Daily(l') == Daily(l) + r.amount && Monthly(l') == Monthly(l) + r.amount
  {
    hide Sum;
    SumSnoc(l.log[l.dayStart..], r);
    SumSnoc(l.log[l.monthStart..], r);
    assert (l.log + [r])[l.dayStart..] == l.log[l.dayStart..] + [r];
    assert (l.log + [r])[l.monthStart..] == l.log[l.monthStart..] + [r];
  }

  lemma RecordedSound(b: Budget, l: Ledger, r: Request)
    requires Sound(b, l)
    ensures Sound(b, Recorded(b, l, r).0)
  {
    hide Sum, From, Percent, Rolled, MonthOf, Newest;
    AlertsBounded();
    hide Alerted;
    RolledSound(b, l, r.today);
    if r.amount > 0.0 { AppendTotals(Rolled(l, r.today), r); }
  }

  function Run(b: Budget, start: Date, rs: seq<Request>): Ledger
    decreases |rs|
  {
    if rs == [] then Opened(start) else Recorded(b, Run(b, start, rs[..|rs| - 1]), rs[|rs| - 1]).0
  }

  lemma {:induction false} RunSound(b: Budget, start: Date, rs: seq<Request>)
    ensures var l := Run(b, start, rs);
      && Sound(b, l) && l.total == |rs|
      && 0.0 <= Daily(l) <= Monthly(l) <= Sum(l.log)
      && (b.zeroCost ==> Sum(l.log) == 0.0)
    decreases |rs|
  {
    hide Sum, From, Recorded, MonthOf;
    if rs != [] {
      var l := Run(b, start, rs[..|rs| - 1]);
      RunSound(b, start, rs[..|rs| - 1]);
      RecordedSound(b, l, rs[|rs| - 1]);
      RecordedCounts(b, l, rs[|rs| - 1]);
    } else {
      FreshSound(b, start);
    }
    NestedTotals(Run(b, start, rs));
    assert Sum([]) == 0.0 by { FreshSound(b, start); }
  }

  lemma RecordedCounts(b: Budget, l: Ledger, r: Request)
    ensures Recorded(b, l, r).0.total == l.total + 1
  {
    hide Percent, Sum, From, Alerted, MonthOf;
  }

  /** The ledger after more requests. */
  function RunFrom(b: Budget, l: Ledger, rs: seq<Request>): Ledger
    decreases |rs|
  {
    if rs == [] then l else Recorded(b, RunFrom(b, l, rs[..|rs| - 1]), rs[|rs| - 1]).0
  }

  lemma RefusalThrottles(b: Budget, l: Ledger, r: Request)
    requires b.autoThrottle && !b.zeroCost && r.amount > 0.0 && !Recorded(b, l, r).1
    ensures r.provider in Recorded(b, l, r).0.throttled && Recorded(b, l, r).0.date == r.today
  {
    hide Daily, Monthly, Alerted, Percent;
  }

  lemma StillThrottled(b: Budget, l: Ledger, r: Request, provider: string)
    requires provider in l.throttled && r.today == l.date
    ensures provider in Recorded(b, l, r).0.throttled && Recorded(b, l, r).0.date == l.date
    ensures r.provider == provider && r.amount > 0.0 ==> !Recorded(b, l, r).1 && Recorded(b, l, r).0.log == l.log
  {
    hide Daily, Monthly, Alerted, Percent;
  }

  /**
   A throttled provider stays throttled, and every payment to it is refused, through all
   further requests of that date.
   */
  lemma {:induction false} ThrottledForTheDay(b: Budget, l: Ledger, rs: seq<Request>, provider: string)
    requires provider in l.throttled && forall i :: 0 <= i < |rs| ==> rs[i].today == l.date
    ensures provider in RunFrom(b, l, rs).throttled && RunFrom(b, l, rs).date == l.date
    ensures forall i :: 0 <= i < |rs| && rs[i].provider == provider && rs[i].amount > 0.0 ==>
      !Recorded(b, RunFrom(b, l, rs[..i]), rs[i]).1
    decreases |rs|
  {
    hide Recorded;
    if rs != [] {
      var init := rs[..|rs| - 1];
      ThrottledForTheDay(b, l, init, provider);
      StillThrottled(b, RunFrom(b, l, init), rs[|rs| - 1], provider);
      assert forall i :: 0 <= i < |init| ==> rs[..i] == init[..i] && rs[i] == init[i];
    }
  }

  /** So a provider refused for a budget is refused for the rest of the day. */
  lemma RefusedForTheDay(b: Budget, l: Ledger, r: Request, rs: seq<Request>)
    requires b.autoThrottle && !b.zeroCost && r.amount > 0.0 && !Recorded(b, l, r).1
    requires forall i :: 0 <= i < |rs| ==> rs[i].today == r.today
    ensures var l1 := Recorded(b, l, r).0;
      forall i :: 0 <= i < |rs| && rs[i].provider == r.provider && rs[i].amount > 0.0 ==>
        !Recorded(b, RunFrom(b, l1, rs[..i]), rs[i]).1
  {
    hide Recorded;
    RefusalThrottles(b, l, r);
    ThrottledForTheDay(b, Recorded(b, l, r).0, rs, r.provider);
  }

  /** A positive amount is let through exactly when it is affordable. */
  lemma AllowedIffAffordable(b: Budget, l: Ledger, r: Request)
    requires r.amount > 0.0
    ensures Recorded(b, l, r).1 <==> Affordable(b, Rolled(l, r.today), r)
    ensures Recorded(b, l, r).0.log == if Recorded(b, l, r).1 then l.log + [r] else l.log
  {
  }

  /** A request that costs nothing always passes, is counted as free, and changes nothing but the period. */
  lemma FreePasses(b: Budget, l: Ledger, r: Request)
    requires r.amount <= 0.0
    ensures var (l', allowed) := Recorded(b, l, r);
      && allowed && l'.free == l.free + 1 && l'.total == l.total + 1 && l'.blocked == l.blocked && l'.log == l.log
      && l'.alerts == l.alerts && l'.throttled == (if r.today == l.date then l.throttled else {}) && l'.date == r.today
  {
    hide Percent, Sum, From, Alerted;
  }

  function FreeCount(rs: seq<Request>): nat {
    if rs == [] then 0 else FreeCount(rs[..|rs| - 1]) + (if rs[|rs| - 1].amount <= 0.0 then 1 else 0)
  }

  /** Over any run the free requests are those that cost nothing, and the blocked ones the others that were not paid. */
  lemma {:induction false} RunCounts(b: Budget, start: Date, rs: seq<Request>)
    ensures var l := Run(b, start, rs);
      && l.free == FreeCount(rs) && l.blocked == |rs| - FreeCount(rs) - |l.log|
  {
    RunSound(b, start, rs);
    FreeInRun(b, start, rs);
  }

  lemma {:induction false} FreeInRun(b: Budget, start: Date, rs: seq<Request>)
    ensures Run(b, start, rs).free == FreeCount(rs)
    decreases |rs|
  {
    hide Percent, Sum, From, Alerted, MonthOf;
    if rs != [] { FreeInRun(b, start, rs[..|rs| - 1]); }
  }

  /** The payment is over a limit, with what was paid this day or this month. */
  predicate OverLimit(b: Budget, l: Ledger, r: Request) {
    || (b.daily > 0.0 && Daily(l) + r.amount > b.daily)
    || (b.monthly > 0.0 && Monthly(l) + r.amount > b.monthly)
  }

  /**
   A request adds to the throttled providers, those of the day, its own alone, and exactly
   when it is refused for a limit.
   */
  lemma ThrottledExact(b: Budget, l: Ledger, r: Request, p: string)
    ensures var day := Rolled(l, r.today);
      && (p in day.throttled <==> r.today == l.date && p in l.throttled)
      && (p in Recorded(b, l, r).0.throttled <==>
           (p in day.throttled
            || (p == r.provider && b.autoThrottle && r.amount > 0.0 && !b.zeroCost && OverLimit(b, day, r))))
  {
    hide Percent, Sum, From, Alerted, MonthOf;
  }

  /** The payment reaches the alert threshold of the day's limit without exceeding it. */
  predicate NearDailyLimit(b: Budget, l: Ledger, r: Request) {
    && b.daily > 0.0 && Daily(l) + r.amount <= b.daily
    && (Daily(l) + r.amount) * 100.0 >= b.alertPercent * b.daily
  }

  /** The alerts a request raises, in order. */
  function Raised(b: Budget, day: Ledger, r: Request): seq<Alert> {
    if r.amount <= 0.0 || r.provider in day.throttled then []
    else if b.zeroCost then [ZeroCostViolation]
    else (if NearDailyLimit(b, day, r) then [DailyBudgetWarning] else [])
         + (if b.autoThrottle && OverLimit(b, day, r) then [ProviderThrottled] else [])
  }

  /** A request raises exactly these alerts; the newest hundred are kept. */
  lemma AlertsExact(b: Budget, l: Ledger, r: Request)
    requires |l.alerts| <= MAX_ALERTS
    ensures Recorded(b, l, r).0.alerts == Newest(l.alerts + Raised(b, Rolled(l, r.today), r), MAX_ALERTS)
  {
    var day := Rolled(l, r.today);
    RolledAlerts(l, r.today);
    NewestAll(l.alerts);
    assert l.alerts + [] == l.alerts;
    if r.amount > 0.0 && r.provider !in day.throttled && !b.zeroCost {
      var counted := day.(total := day.total + 1);
      ChargedAlerts(b, counted, r);
      hide Percent, Charged, Rolled, NearDailyLimit, OverLimit, Newest, Daily, Monthly;
      SameDay(b, day, counted, r);
    } else {
      hide Percent, Charged, Rolled, NearDailyLimit, OverLimit, Newest;
    }
  }

  lemma RolledAlerts(l: Ledger, today: Date)
    ensures Rolled(l, today).alerts == l.alerts
  {
  }

  lemma SameDay(b: Budget, day: Ledger, counted: Ledger, r: Request)
    requires counted == day.(total := day.total + 1)
    ensures NearDailyLimit(b, counted, r) == NearDailyLimit(b, day, r)
    ensures OverLimit(b, counted, r) == OverLimit(b, day, r)
  {
    hide Sum;
  }

  lemma ChargedAlerts(b: Budget, l: Ledger, r: Request)
    ensures var near := if NearDailyLimit(b, l, r) then [DailyBudgetWarning] else [];
      var over := if b.autoThrottle && OverLimit(b, l, r) then [ProviderThrottled] else [];
      |l.alerts| <= MAX_ALERTS ==> Charged(b, l, r).0.alerts == Newest(l.alerts + (near + over), MAX_ALERTS)
  {
    if b.daily > 0.0 { PercentReached(Daily(l) + r.amount, b.daily, b.alertPercent); }
    WarnsExact(b, l, r);
    hide Percent, Daily, Monthly, Newest, Warns;
    if |l.alerts| <= MAX_ALERTS { NewestAll(l.alerts); }
    NewestTwo(l.alerts, DailyBudgetWarning, ProviderThrottled);
    assert [DailyBudgetWarning] + [] == [DailyBudgetWarning] && [] + [ProviderThrottled] == [ProviderThrottled];
    assert l.alerts + ([] + []) == l.alerts;
    var w := l.(alerts := Alerted(l.alerts, DailyBudgetWarning));
    assert Daily(w) == Daily(l) && Monthly(w) == Monthly(l) by { SameTotals(l, w); }
  }

  lemma SameTotals(l: Ledger, w: Ledger)
    requires w.log == l.log && w.dayStart == l.dayStart && w.monthStart == l.monthStart
    ensures Daily(w) == Daily(l) && Monthly(w) == Monthly(l)
  {
  }

  lemma WarnsExact(b: Budget, l: Ledger, r: Request)
    ensures Warns(b, l, r) && Daily(l) + r.amount <= b.daily <==> NearDailyLimit(b, l, r)
  {
    if b.daily > 0.0 { PercentReached(Daily(l) + r.amount, b.daily, b.alertPercent); }
    hide Percent, Daily;
  }

  lemma PercentReached(part: real, whole: real, percent: real)
    requires whole > 0.0
    ensures Percent(part, whole) >= percent <==> part * 100.0 >= percent * whole
  {
    var x := Percent(part, whole);
    assert x * whole == part * 100.0 by { assert part / whole * whole == part; }
    if x >= percent { assert (x - percent) * whole >= 0.0; } else { assert (percent - x) * whole > 0.0; }
  }

  lemma NewestAll(alerts: seq<Alert>)
    requires |alerts| <= MAX_ALERTS
    ensures Newest(alerts, MAX_ALERTS) == alerts
  {
  }

  lemma NewestTwo(alerts: seq<Alert>, a: Alert, b: Alert)
    ensures Newest(Newest(alerts + [a], MAX_ALERTS) + [b], MAX_ALERTS) == Newest(alerts + ([a] + [b]), MAX_ALERTS)
  {
    NewestSnoc(alerts + [a], b, MAX_ALERTS);
    assert alerts + [a] + [b] == alerts + ([a] + [b]);
  }

  // ---- What the daily total means ----

  predicate NotAfter(a: Date, b: Date) {
    a.year < b.year || (a.year == b.year && (a.month < b.month || (a.month == b.month && a.day <= b.day)))
  }

  /** What was paid on one date. */
  function SpentOn(log: seq<Request>, d: Date): real {
    if log == [] then 0.0
    else SpentOn(log[..|log| - 1], d) + (if log[|log| - 1].today == d then log[|log| - 1].amount else 0.0)
  }

  function SpentInMonth(log: seq<Request>, d: Date): real {
    if log == [] then 0.0
    else
      var last := log[|log| - 1];
      SpentInMonth(log[..|log| - 1], d) + (if MonthOf(last.today) == MonthOf(d) then last.amount else 0.0)
  }

  ghost predicate Periods(l: Ledger) {
    && WellFormed(l)
    && (forall i :: 0 <= i < |l.log| ==> NotAfter(l.log[i].today, l.date))
    && (forall i :: 0 <= i < |l.log| ==> (l.log[i].today == l.date <==> l.dayStart <= i))
    && (forall i :: 0 <= i < |l.log| ==> (MonthOf(l.log[i].today) == MonthOf(l.date) <==> l.monthStart <= i))
  }

  lemma {:induction false} DayTotal(log: seq<Request>, d: Date, start: nat)
    requires start <= |log| && forall i :: 0 <= i < |log| ==> (log[i].today == d <==> start <= i)
    ensures SpentOn(log, d) == Sum(log[start..])
    decreases |log|
  {
    SumEmpty();
    hide Sum;
    if log == [] {
      assert log[start..] == [];
    } else {
      var init, last, start' := log[..|log| - 1], log[|log| - 1], if start == |log| then start - 1 else start;
      DayTotal(init, d, start');
      SliceLast(log, start);
      if start < |log| { SumSnoc(init[start..], last); }
    }
  }

  lemma {:induction false} MonthTotal(log: seq<Request>, d: Date, start: nat)
    requires start <= |log| && forall i :: 0 <= i < |log| ==> (MonthOf(log[i].today) == MonthOf(d) <==> start <= i)
    ensures SpentInMonth(log, d) == Sum(log[start..])
    decreases |log|
  {
    SumEmpty();
    hide Sum, MonthOf;
    if log == [] {
      assert log[start..] == [];
    } else {
      var init, last, start' := log[..|log| - 1], log[|log| - 1], if start == |log| then start - 1 else start;
      MonthTotal(init, d, start');
      SliceLast(log, start);
      if start < |log| { SumSnoc(init[start..], last); }
    }
  }

  lemma SumEmpty()
    ensures Sum([]) == 0.0
  {
  }

  /** A suffix and the last element. */
  lemma SliceLast(log: seq<Request>, start: nat)
    requires start <= |log| && log != []
    ensures var init := log[..|log| - 1];
      if start == |log| then init[start - 1..] == [] && log[start..] == []
      else log[start..] == init[start..] + [log[|log| - 1]]
  {
  }

  lemma RolledPeriods(l: Ledger, today: Date)
    requires Periods(l) && NotAfter(l.date, today)
    ensures Periods(Rolled(l, today))
  {
    var l' := Rolled(l, today);
    forall i | 0 <= i < |l.log|
      ensures NotAfter(l.log[i].today, today)
      ensures l.log[i].today == today <==> l'.dayStart <= i
      ensures MonthOf(l.log[i].today) == MonthOf(today) <==> l'.monthStart <= i
    {
      assert NotAfter(l.log[i].today, l.date);
    }
  }

  lemma RecordedPeriods(b: Budget, l: Ledger, r: Request)
    requires WellFormed(l) && Periods(Rolled(l, r.today))
    ensures Periods(Recorded(b, l, r).0) && Recorded(b, l, r).0.date == r.today
  {
    hide Percent, Sum, From, Alerted;
  }

  /** When the date never goes back, the totals are exactly what was paid that day and that month. */
  lemma {:induction false} TotalsArePeriodSpend(b: Budget, start: Date, rs: seq<Request>)
    requires forall i :: 0 <= i < |rs| ==> NotAfter(start, rs[i].today)
    requires forall i, j :: 0 <= i < j < |rs| ==> NotAfter(rs[i].today, rs[j].today)
    ensures var l := Run(b, start, rs);
      && Periods(l) && l.date == (if rs == [] then start else rs[|rs| - 1].today)
      && Daily(l) == SpentOn(l.log, l.date) && Monthly(l) == SpentInMonth(l.log, l.date)
    decreases |rs|
  {
    if rs != [] {
      var init, r := rs[..|rs| - 1], rs[|rs| - 1];
      TotalsArePeriodSpend(b, start, init);
      var l := Run(b, start, init);
      assert NotAfter(l.date, r.today) by {
        assert init != [] ==> init[|init| - 1] == rs[|rs| - 2];
      }
      hide Recorded, Periods, NotAfter;
      RolledPeriods(l, r.today);
      RecordedPeriods(b, l, r);
    }
    var l := Run(b, start, rs);
    DayTotal(l.log, l.date, l.dayStart);
    MonthTotal(l.log, l.date, l.monthStart);
  }

  /**
   When the date never goes back, a payment passes exactly when it fits in what is left of
   that day's and that month's limit.
   */
  lemma AllowedIffWithinSpend(b: Budget, start: Date, rs: seq<Request>, r: Request)
    requires forall i :: 0 <= i < |rs| ==> NotAfter(start, rs[i].today)
    requires forall i, j :: 0 <= i < j < |rs| ==> NotAfter(rs[i].today, rs[j].today)
    requires r.amount > 0.0 && NotAfter(if rs == [] then start else rs[|rs| - 1].today, r.today)
    ensures var l := Run(b, start, rs);
      Recorded(b, l, r).1 <==>
        && !(r.today == l.date && r.provider in l.throttled) && !b.zeroCost
        && (b.daily > 0.0 ==> SpentOn(l.log, r.today) + r.amount <= b.daily)
        && (b.monthly > 0.0 ==> SpentInMonth(l.log, r.today) + r.amount <= b.monthly)
  {
    var l := Run(b, start, rs);
    TotalsArePeriodSpend(b, start, rs);
    AllowedIffAffordable(b, l, r);
    var l' := Rolled(l, r.today);
    RolledPeriods(l, r.today);
    RolledTotals(l, r.today);
    DayTotal(l'.log, r.today, l'.dayStart);
    MonthTotal(l'.log, r.today, l'.monthStart);
  }

  // ---- Sums per category and provider ----

  type Field = Request -> string

  function SpentBy(log: seq<Request>, f: Field, key: string): real {
    if log == [] then 0.0
    else SpentBy(log[..|log| - 1], f, key) + (if f(log[|log| - 1]) == key then log[|log| - 1].amount else 0.0)
  }

  /** `m` holds, for each value of `f` in the log, what was spent on it; together that is everything. */
  ghost predicate Breakdown(m: map<string, real>, log: seq<Request>, f: Field) {
    && (forall k :: k in m ==> m[k] == SpentBy(log, f, k))
    && (forall k :: k !in m ==> SpentBy(log, f, k) == 0.0)
    && Total(m) == Sum(log)
  }

  lemma FreshSound(b: Budget, today: Date)
    ensures Sound(b, Opened(today)) && Rolled(Opened(today), today) == Opened(today)
    ensures Daily(Opened(today)) == Monthly(Opened(today)) == Sum(Opened(today).log) == 0.0
    ensures Newest(Opened(today).log, MAX_ENTRIES) == []
    ensures Breakdown(map[], Opened(today).log, (r: Request) => r.category)
    ensures Breakdown(map[], Opened(today).log, (r: Request) => r.provider)
  {
  }

  lemma BreakdownSnoc(m: map<string, real>, log: seq<Request>, f: Field, r: Request)
    requires Breakdown(m, log, f)
    ensures Breakdown(m[f(r) := (if f(r) in m then m[f(r)] else 0.0) + r.amount], log + [r], f)
  {
    assert (log + [r])[..|log|] == log;
    TotalUpdate(m, f(r), (if f(r) in m then m[f(r)] else 0.0) + r.amount);
  }

  // ---- The object ----

  class ZeroCostGuard {
    const budget: Budget
    var dailyTotal: real
    var monthlyTotal: real
    var lifetimeTotal: real
    var currentDay: Option<Date>
    var currentMonth: Option<(int, int)>
    var byCategory: map<string, real>
    var byProvider: map<string, real>
    var throttled: set<string>
    var entries: seq<Request>
    var alerts: seq<Alert>
    var requestsTotal: nat
    var requestsZeroCost: nat
    var requestsPaid: nat
    var requestsBlocked: nat
    ghost var ledger: Ledger

    /** Per-category and per-provider sums are those of `log`. */
    ghost predicate Breakdowns(log: seq<Request>)
      reads this`byCategory, this`byProvider
    {
      && Breakdown(byCategory, log, (r: Request) => r.category)
      && Breakdown(byProvider, log, (r: Request) => r.provider)
    }

    /** The running totals, sums, lists and counters are those of `l`. */
    ghost predicate Tracks(l: Ledger)
      reads this
    {
      && WellFormed(l)
      && dailyTotal == Daily(l) && monthlyTotal == Monthly(l) && lifetimeTotal == Sum(l.log)
      && currentDay == Some(l.date) && currentMonth == Some(MonthOf(l.date))
      && Breakdowns(l.log)
      && throttled == l.throttled && alerts == l.alerts
      && entries == Newest(l.log, MAX_ENTRIES)
      && requestsTotal == l.total && requestsZeroCost == l.free
      && requestsPaid == |l.log| && requestsBlocked == l.blocked
    }

    ghost predicate Valid()
      reads this
    {
      Sound(budget, ledger) && Tracks(ledger)
    }

    constructor (budget: Budget, today: Date)
      ensures Valid() && this.budget == budget && ledger == Opened(today)
    {
      this.budget := budget;
      dailyTotal, monthlyTotal, lifetimeTotal := 0.0, 0.0, 0.0;
      currentDay, currentMonth := None, None;
      byCategory, byProvider, throttled, entries, alerts := map[], map[], {}, [], [];
      requestsTotal, requestsZeroCost, requestsPaid, requestsBlocked := 0, 0, 0, 0;
      ledger := Opened(today);
      new;
      ResetPeriodIfNeeded(today);
      FreshSound(budget, today);
    }

    method ResetPeriodIfNeeded(today: Date)
      modifies this`dailyTotal, this`monthlyTotal, this`currentDay, this`currentMonth, this`throttled
      ensures currentDay == Some(today) && currentMonth == Some(MonthOf(today))
      ensures dailyTotal == if old(currentDay) == Some(today) then old(dailyTotal) else 0.0
      ensures throttled == if old(currentDay) == Some(today) then old(throttled) else {}
      ensures monthlyTotal == if old(currentMonth) == Some(MonthOf(today)) then old(monthlyTotal) else 0.0
    {
      if currentDay != Some(today) {
        dailyTotal := 0.0;
        currentDay := Some(today);
        throttled := {};
      }
      if currentMonth != Some(MonthOf(today)) {
        monthlyTotal := 0.0;
        currentMonth := Some(MonthOf(today));
      }
    }

    method RecordCost(r: Request) returns (allowed: bool)
      requires Valid()
      modifies this
      ensures Valid()
      ensures (ledger, allowed) == Recorded(budget, old(ledger), r)
    {
      hide Breakdowns, Sum, From, Total, MonthOf, Percent, Alerted, Newest, Rolled, Charged;
      RecordedSound(budget, ledger, r);
      SoundIsWellFormed(budget, ledger);
      RolledTotals(ledger, r.today);
      ghost var recorded, rolled := Recorded(budget, ledger, r).0, Rolled(ledger, r.today);
      ResetPeriodIfNeeded(r.today);
      assert Tracks(rolled);
      requestsTotal := requestsTotal + 1;
      if r.amount <= 0.0 {
        requestsZeroCost := requestsZeroCost + 1;
        allowed := true;
      } else if r.provider in throttled {
        requestsBlocked := requestsBlocked + 1;
        allowed := false;
      } else if budget.zeroCost {
        requestsBlocked := requestsBlocked + 1;
        AddAlert(ZeroCostViolation);
        allowed := false;
      } else {
        allowed := Charge(r, rolled.(total := rolled.total + 1));
      }
      ledger := recorded;
    }

    /** The budget checks, and the entry of the cost if they pass. */
    method Charge(r: Request, ghost l: Ledger) returns (allowed: bool)
      requires Tracks(l) && r.amount > 0.0
      modifies this`entries, this`dailyTotal, this`monthlyTotal, this`lifetimeTotal, this`byCategory, this`byProvider,
               this`requestsPaid, this`requestsBlocked, this`throttled, this`alerts
      ensures Tracks(Charged(budget, l, r).0) && allowed == Charged(budget, l, r).1
    {
      hide Breakdowns, Sum, From, Total, MonthOf, Percent, Alerted, Newest;
      if budget.daily > 0.0 {
        if dailyTotal + r.amount > budget.daily {
          ThrottleProvider(r.provider);
          requestsBlocked := requestsBlocked + 1;
          return false;
        }
        var percent := Percent(dailyTotal + r.amount, budget.daily);
        if percent >= budget.alertPercent {
          AddAlert(DailyBudgetWarning);
        }
      }
      ghost var w := if Warns(budget, l, r) then l.(alerts := Alerted(l.alerts, DailyBudgetWarning)) else l;
      if budget.monthly > 0.0 && monthlyTotal + r.amount > budget.monthly {
        ThrottleProvider(r.provider);
        requestsBlocked := requestsBlocked + 1;
        return false;
      }
      AppendTotals(w, r);
      Append(r, w);
      allowed := true;
    }

    method AddAlert(a: Alert)
      modifies this`alerts
      ensures alerts == Alerted(old(alerts), a)
    {
      alerts := alerts + [a];
      if |alerts| > MAX_ALERTS {
        alerts := alerts[|alerts| - MAX_ALERTS..];
      }
    }

    method ThrottleProvider(provider: string)
      modifies this`throttled, this`alerts
      ensures throttled == if budget.autoThrottle then old(throttled) + {provider} else old(throttled)
      ensures alerts == if budget.autoThrottle then Alerted(old(alerts), ProviderThrottled) else old(alerts)
    {
      if budget.autoThrottle {
        throttled := throttled + {provider};
        AddAlert(ProviderThrottled);
      }
    }

    /** Enters a paid cost into every total. */
    method Append(r: Request, ghost l: Ledger)
      requires Tracks(l) && r.amount > 0.0
      modifies this`entries, this`dailyTotal, this`monthlyTotal, this`lifetimeTotal, this`byCategory, this`byProvider,
        this`requestsPaid
      ensures Tracks(l.(log := l.log + [r]))
    {
      hide Breakdowns, Sum, From, Total, Daily, Monthly, MonthOf, Newest;
      SumSnoc(l.log, r);
      AppendTotals(l, r);
      NewestSnoc(l.log, r, MAX_ENTRIES);
      dailyTotal := dailyTotal + r.amount;
      monthlyTotal := monthlyTotal + r.amount;
      lifetimeTotal := lifetimeTotal + r.amount;
      AddToBreakdowns(r, l.log);
      requestsPaid := requestsPaid + 1;
      Keep(r);
    }

    method AddToBreakdowns(r: Request, ghost log: seq<Request>)
      requires Breakdowns(log)
      modifies this`byCategory, this`byProvider
      ensures Breakdowns(log + [r])
    {
      hide Breakdown;
      BreakdownSnoc(byCategory, log, (x: Request) => x.category, r);
      BreakdownSnoc(byProvider, log, (x: Request) => x.provider, r);
      var spent := if r.category in byCategory then byCategory[r.category] else 0.0;
      byCategory := byCategory[r.category := spent + r.amount];
      spent := if r.provider in byProvider then byProvider[r.provider] else 0.0;
      byProvider := byProvider[r.provider := spent + r.amount];
    }

    /** Adds to the list of entries, trimmed to the newest ones. */
    method Keep(r: Request)
      modifies this`entries
      ensures entries == Newest(old(entries) + [r], MAX_ENTRIES)
    {
      entries := entries + [r];
      if |entries| > MAX_ENTRIES {
        entries := entries[|entries| - MAX_ENTRIES..];
      }
    }
  }
}
