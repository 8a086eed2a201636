/**
 * Firing rules of the backtest engine: periodic, intraday, market-level,
 * strategy-risk and aggregate triggers, and the bookkeeping every trigger
 * does when it is built (its actions, the risks they need, its calc type).
 *
 * Dates are day numbers. A time of day is a whole number of seconds after
 * midnight; an intraday frequency is a whole number of minutes.
 */
module Triggers {
  import opened Wrappers

  type Date = int

  /** Seconds after midnight. */
  type TimeOfDay = t: int | 0 <= t < 86400

  datatype DateTime = DateTime(date: Date, time: TimeOfDay)

  type Risk = string

  /** An action of a trigger; only the risk it needs, if any, matters here. */
  datatype Action = Action(name: string, risk: Option<Risk>)

  datatype TriggerDirection = Above | Below | Equal

  datatype CalcType = Simple | PathDependent

  // ---------------------------------------------------------------------
  // Bookkeeping shared by every trigger
  // ---------------------------------------------------------------------

  /** The risks of a list of actions: each action's risk, skipping actions without one. */
  function ActionRisks(actions: seq<Action>): (risks: seq<Risk>)
    ensures |risks| <= |actions|
    ensures forall r :: r in risks <==> exists a :: a in actions && a.risk == Some(r)
  {
    if actions == [] then []
    else
      var rest := ActionRisks(actions[1..]);
      assert forall a :: a in actions <==> a == actions[0] || a in actions[1..];
      match actions[0].risk
      case Some(r) => [r] + rest
      case None => rest
  }

  /** Collecting risks commutes with concatenating action lists, so risks come out in action order. */
  lemma {:induction false} ActionRisksAppend(xs: seq<Action>, ys: seq<Action>)
    ensures ActionRisks(xs + ys) == ActionRisks(xs) + ActionRisks(ys)
  {
    if xs == [] {
      assert xs + ys == ys;
    } else {
      assert (xs + ys)[0] == xs[0];
      assert (xs + ys)[1..] == xs[1..] + ys;
      ActionRisksAppend(xs[1..], ys);
    }
  }

  // ---------------------------------------------------------------------
  // Threshold rule of the market and strategy-risk triggers
  // ---------------------------------------------------------------------

  /** The direction that describes how `value` stands to `level`. */
  function Relation(value: int, level: int): TriggerDirection
  {
    if value > level then Above else if value < level then Below else Equal
  }

  /** A threshold trigger fires exactly when its direction names the relation of the value to the level. */
  function Fires(direction: TriggerDirection, value: int, level: int): (fired: bool)
    ensures fired <==> Relation(value, level) == direction
  {
    match direction
    case Above => value > level
    case Below => value < level
    case Equal => value == level
  }

  /** For any value and level, exactly one of the three directions fires. */
  lemma ExactlyOneDirectionFires(value: int, level: int)
    ensures Fires(Above, value, level) || Fires(Below, value, level) || Fires(Equal, value, level)
    ensures forall d1, d2 :: Fires(d1, value, level) && Fires(d2, value, level) ==> d1 == d2
  {
  }

  // ---------------------------------------------------------------------
  // Periodic trigger: trigger dates computed on first use and cached
  // ---------------------------------------------------------------------

  datatype PeriodicTriggerRequirements =
    PeriodicTriggerRequirements(startDate: Date, endDate: Date, frequency: string, calendar: string)

  /** Python truthiness of the cached trigger-date list: None and the empty list are false. */
  predicate IsSet(cache: Option<seq<Date>>)
  {
    cache.Some? && cache.value != []
  }

  class PeriodicTrigger {
    const requirements: PeriodicTriggerRequirements
    /** The calendar-date generator: the dates from start to end at the given frequency. */
    const dateRange: (Date, Date, string) -> seq<Date>
    const actions: seq<Action>
    const risks: seq<Risk>
    const calcType: CalcType
    var triggerDates: Option<seq<Date>>

    /** The dates the generator yields for this trigger's requirements. */
    function GeneratedDates(): seq<Date>
    {
      dateRange(requirements.startDate, requirements.endDate, requirements.frequency)
    }

    /** The cache is empty or holds the generated dates. */
    ghost predicate Valid()
      reads this
    {
      triggerDates.Some? ==> triggerDates.value == GeneratedDates()
    }

    constructor (requirements: PeriodicTriggerRequirements, dateRange: (Date, Date, string) -> seq<Date>,
                 actions: seq<Action>)
      ensures Valid()
      ensures this.requirements == requirements && this.dateRange == dateRange && this.actions == actions
      ensures risks == ActionRisks(actions) && calcType == Simple
      ensures triggerDates == None
    {
      this.requirements := requirements;
      this.dateRange := dateRange;
      this.actions := actions;
      this.risks := ActionRisks(actions);
      this.calcType := Simple;
      this.triggerDates := None;
    }

    /** Returns the trigger dates, generating them while the cache is empty. */
    method GetTriggerDates() returns (dates: seq<Date>)
      requires Valid()
      modifies this`triggerDates
      ensures Valid()
      ensures dates == GeneratedDates()
      ensures triggerDates == Some(dates)
      ensures IsSet(old(triggerDates)) ==> triggerDates == old(triggerDates)
    {
      if !IsSet(triggerDates) {
        triggerDates := Some(GeneratedDates());
      }
      dates := triggerDates.value;
    }

    /** Fires on exactly the generated dates, whatever the state of the cache. */
    method HasTriggered(state: Date) returns (fired: bool)
      requires Valid()
      modifies this`triggerDates
      ensures Valid()
      ensures fired <==> state in GeneratedDates()
      ensures triggerDates == Some(GeneratedDates())
      ensures IsSet(old(triggerDates)) ==> triggerDates == old(triggerDates)
    {
      if !IsSet(triggerDates) {
        var _ := GetTriggerDates();
      }
      fired := state in triggerDates.value;
    }
  }

  // ---------------------------------------------------------------------
  // Intraday periodic trigger: a schedule of times built by a loop
  // ---------------------------------------------------------------------

  /** The time of day `freq` minutes after `time`, on a clock that wraps at midnight. */
  function Advance(time: TimeOfDay, freq: int): (next: TimeOfDay)
    ensures 0 <= time + 60 * freq < 86400 ==> next == time + 60 * freq
    ensures (time + 60 * freq - next) % 86400 == 0
  {
    (time + 60 * freq) % 86400
  }

  /** The time reached from `start` after `k` steps of `freq` minutes. */
  function Iterate(start: TimeOfDay, freq: int, k: nat): TimeOfDay
  {
    if k == 0 then start else Advance(Iterate(start, freq, k - 1), freq)
  }

  /**
   * `times` is what the schedule loop produces: the times reached from
   * `start`, in order, as long as they are not after `end`, stopping at the
   * first time that is.
   */
  ghost predicate IsSchedule(start: TimeOfDay, end: TimeOfDay, freq: int, times: seq<int>)
  {
    && (forall j :: 0 <= j < |times| ==> times[j] == Iterate(start, freq, j) && times[j] <= end)
    && Iterate(start, freq, |times|) > end
  }

  /**
   * The schedule loop as written, on a clock that wraps at midnight. It
   * terminates exactly when some step takes the time past `end`; the ghost
   * `exit` is such a step.
   */
  method BuildTriggerTimes(start: TimeOfDay, end: TimeOfDay, freq: int, ghost exit: nat)
    returns (times: seq<TimeOfDay>)
    requires Iterate(start, freq, exit) > end
    ensures IsSchedule(start, end, freq, times)
    ensures |times| <= exit
  {
    times := [];
    var time := start;
    while time <= end
      invariant |times| <= exit
      invariant time == Iterate(start, freq, |times|)
      invariant forall j {:trigger times[j]} :: 0 <= j < |times| ==> times[j] == Iterate(start, freq, j) && times[j] <= end
      decreases exit - |times|
    {
      times := times + [time];
      time := Advance(time, freq);
    }
  }

  /** The loop's output is determined by its inputs. */
  lemma ScheduleUnique(start: TimeOfDay, end: TimeOfDay, freq: int, xs: seq<int>, ys: seq<int>)
    requires IsSchedule(start, end, freq, xs) && IsSchedule(start, end, freq, ys)
    ensures xs == ys
  {
    var n := if |xs| < |ys| then |xs| else |ys|;
    assert Iterate(start, freq, n) > end;
    assert |xs| == |ys|;
  }

  /** The schedule is empty exactly when the start is after the end. */
  lemma EmptyScheduleIffStartAfterEnd(start: TimeOfDay, end: TimeOfDay, freq: int, times: seq<int>)
    requires IsSchedule(start, end, freq, times)
    ensures times == [] <==> start > end
  {
    if times != [] {
      assert times[0] == Iterate(start, freq, 0);
    }
  }

  /** The number of schedule entries when no step crosses midnight: how many steps fit from start to end. */
  function NoWrapCount(start: TimeOfDay, end: TimeOfDay, freq: int): (n: nat)
    requires 0 < freq && start <= end
    ensures n >= 1
    ensures (n - 1) * (60 * freq) <= end - start < n * (60 * freq)
  {
    var s := 60 * freq;
    DivBounds(end - start, s);
    MulStep((end - start) / s, s);
    (end - start) / s + 1
  }

  lemma DivBounds(x: int, s: int)
    requires s > 0
    ensures (x / s) * s <= x < (x / s) * s + s
    ensures x % s == 0 ==> x == (x / s) * s
  {
  }

  lemma MulStep(k: int, s: int)
    ensures k * s + s == (k + 1) * s
  {
  }

  lemma {:induction false} MulMonotone(a: int, b: int, s: int)
    requires s >= 0
    ensures a <= b ==> a * s <= b * s
    decreases if a <= b then b - a else 0
  {
    if a < b {
      MulMonotone(a, b - 1, s);
      MulStep(b - 1, s);
    }
  }

  lemma MulMod(j: int, s: int)
    requires s > 0
    ensures (j * s) % s == 0
  {
    var q, r := (j * s) / s, (j * s) % s;
    assert j * s == q * s + r;
    assert (j - q) * s == r;
    MulMonotone(j - q, -1, s);
    MulMonotone(1, j - q, s);
  }

  /** Before the clock wraps, the k-th time is `start` plus k steps. */
  lemma {:induction false} IterateNoWrap(start: TimeOfDay, freq: int, k: nat)
    requires freq > 0 && start + k * (60 * freq) < 86400
    ensures Iterate(start, freq, k) == start + k * (60 * freq)
  {
    if k > 0 {
      var s := 60 * freq;
      MulStep(k - 1, s);
      IterateNoWrap(start, freq, k - 1);
    }
  }

  /** Up to the first step past `end`, a schedule that does not wrap is start plus whole steps. */
  lemma NoWrapIterate(start: TimeOfDay, end: TimeOfDay, freq: int, j: nat)
    requires 0 < freq && start <= end
    requires start + NoWrapCount(start, end, freq) * (60 * freq) < 86400
    requires j <= NoWrapCount(start, end, freq)
    ensures Iterate(start, freq, j) == start + j * (60 * freq)
    ensures Iterate(start, freq, j) <= end <==> j < NoWrapCount(start, end, freq)
  {
    var s, n := 60 * freq, NoWrapCount(start, end, freq);
    MulMonotone(j, n, s);
    MulMonotone(j, n - 1, s);
    IterateNoWrap(start, freq, j);
  }

  /**
   * When the first step past `end` is still before midnight, the schedule is
   * start, start + f, start + 2f, ... up to `end`, strictly increasing.
   */
  lemma ScheduleWithoutWrap(start: TimeOfDay, end: TimeOfDay, freq: int, times: seq<int>)
    requires 0 < freq && start <= end
    requires start + NoWrapCount(start, end, freq) * (60 * freq) < 86400
    requires IsSchedule(start, end, freq, times)
    ensures |times| == NoWrapCount(start, end, freq)
    ensures forall j :: 0 <= j < |times| ==> times[j] == start + j * (60 * freq)
    ensures forall i, j :: 0 <= i < j < |times| ==> times[i] < times[j]
  {
    var s, n := 60 * freq, NoWrapCount(start, end, freq);
    var m := if |times| < n then |times| else n;
    NoWrapIterate(start, end, freq, m);
    assert |times| == n;
    forall j | 0 <= j < |times|
      ensures times[j] == start + j * s
    {
      NoWrapIterate(start, end, freq, j);
    }
    forall i, j | 0 <= i < j < |times|
      ensures times[i] < times[j]
    {
      MulMonotone(i + 1, j, s);
      MulStep(i, s);
    }
  }

  /** A step of a whole number of days never moves the clock, so the loop never ends once start <= end. */
  lemma {:induction false} WholeDayStepNeverExits(start: TimeOfDay, end: TimeOfDay, freq: int, k: nat)
    requires freq % 1440 == 0 && start <= end
    ensures Iterate(start, freq, k) == start
  {
    if k > 0 {
      WholeDayStepNeverExits(start, end, freq, k - 1);
      var m := freq / 1440;
      assert 60 * freq == 86400 * m;
      ModWholeDays(start, m);
    }
  }

  lemma ModWholeDays(t: TimeOfDay, m: int)
    ensures (t + 86400 * m) % 86400 == t
  {
  }

  lemma DayIsWholeSteps(freq: int)
    requires freq > 0 && 1440 % freq == 0
    ensures 86400 == (1440 / freq) * (60 * freq)
  {
    assert 1440 == (1440 / freq) * freq;
  }

  lemma GridStep(start: int, i: int, s: int, q: int, m: int)
    ensures start + i * s + s - (m * s) * q == start + (i + 1 - q * m) * s
  {
  }

  /** Every time reached from `start` is `start` plus a whole number of steps, when the step divides a day. */
  lemma {:induction false} IterateOnGrid(start: TimeOfDay, freq: int, k: nat) returns (i: int)
    requires freq > 0 && 1440 % freq == 0
    ensures Iterate(start, freq, k) == start + i * (60 * freq)
  {
    if k == 0 {
      i := 0;
    } else {
      var i' := IterateOnGrid(start, freq, k - 1);
      var s, m := 60 * freq, 1440 / freq;
      var t := Iterate(start, freq, k - 1);
      DayIsWholeSteps(freq);
      var q := (t + s) / 86400;
      assert Iterate(start, freq, k) == t + s - 86400 * q;
      GridStep(start, i', s, q, m);
      i := i' + 1 - q * m;
    }
  }

  /**
   * When the step divides a day and the first step past `end` crosses
   * midnight, every time the loop reaches is at most `end`: the loop runs
   * forever.
   */
  lemma WrapNeverExits(start: TimeOfDay, end: TimeOfDay, freq: int, k: nat)
    requires 0 < freq && 1440 % freq == 0 && start <= end
    requires start + NoWrapCount(start, end, freq) * (60 * freq) >= 86400
    ensures Iterate(start, freq, k) <= end
  {
    var s, n := 60 * freq, NoWrapCount(start, end, freq);
    var i := IterateOnGrid(start, freq, k);
    MulMonotone(n, i, s);
    MulMonotone(i, n - 1, s);
  }

  /**
   * The loop can also end after the clock wraps, with a schedule that is
   * not increasing: from midnight to 16:40 every 1000 minutes.
   */
  lemma WrapThenExit()
    ensures IsSchedule(0, 60000, 1000, [0, 60000, 33600, 7200])
  {
    assert Iterate(0, 1000, 1) == 60000;
    assert Iterate(0, 1000, 2) == 33600;
    assert Iterate(0, 1000, 3) == 7200;
    assert Iterate(0, 1000, 4) == 67200;
  }

  /**
   * Hourly from 09:00 to 23:59 the loop never stops: after 23:00 the clock
   * wraps to 00:00, which is again before the end.
   */
  lemma HourlyUntilMidnightNeverExits(start: TimeOfDay, end: TimeOfDay, freq: int, k: nat)
    requires start == 32400 && end == 86340 && freq == 60
    ensures Iterate(start, freq, k) <= end
  {
    assert NoWrapCount(start, end, freq) == 15;
    WrapNeverExits(start, end, freq, k);
  }

  // ---------------------------------------------------------------------
  // The schedule within the day
  // ---------------------------------------------------------------------

  /**
   * `times` are start, start + f, start + 2f, ... for a step of f = `freq`
   * minutes, as long as they are not after `end`: the times of one day.
   */
  ghost predicate IsSameDaySchedule(start: TimeOfDay, end: TimeOfDay, freq: int, times: seq<int>)
  {
    && (forall j {:trigger times[j]} :: 0 <= j < |times| ==> times[j] == start + j * (60 * freq) && times[j] <= end)
    && start + |times| * (60 * freq) > end
  }

  /** The schedule loop with the clock kept from wrapping: it stops at the first time after `end`. */
  method BuildSameDayTriggerTimes(start: TimeOfDay, end: TimeOfDay, freq: int) returns (times: seq<TimeOfDay>)
    requires freq > 0
    ensures IsSameDaySchedule(start, end, freq, times)
  {
    var s := 60 * freq;
    times := [];
    var time: int := start;
    while time <= end
      invariant time == start + |times| * s
      invariant forall j {:trigger times[j]} :: 0 <= j < |times| ==> times[j] == start + j * s && times[j] <= end
      decreases end - time
    {
      MulStep(|times|, s);
      times := times + [time];
      time := time + s;
    }
  }

  /** A same-day schedule has one entry per step that fits from start to end, and none when start is after end. */
  lemma SameDayCount(start: TimeOfDay, end: TimeOfDay, freq: int, times: seq<int>)
    requires freq > 0 && IsSameDaySchedule(start, end, freq, times)
    ensures start > end ==> times == []
    ensures start <= end ==> |times| == NoWrapCount(start, end, freq)
  {
    var s := 60 * freq;
    if times != [] {
      assert times[0] == start + 0 * s;
      if start <= end {
        var n := NoWrapCount(start, end, freq);
        var last := |times| - 1;
        assert times[last] <= end;
        if |times| < n {
          MulMonotone(|times|, n - 1, s);
        } else if |times| > n {
          MulMonotone(n, last, s);
        }
      }
    }
  }

  /** A same-day schedule is strictly increasing and lies between start and end. */
  lemma SameDayIncreasing(start: TimeOfDay, end: TimeOfDay, freq: int, times: seq<int>)
    requires freq > 0 && IsSameDaySchedule(start, end, freq, times)
    ensures forall i, j :: 0 <= i < j < |times| ==> times[i] < times[j]
    ensures forall j :: 0 <= j < |times| ==> start <= times[j] <= end
  {
    var s := 60 * freq;
    forall i, j | 0 <= i < j < |times|
      ensures times[i] < times[j]
    {
      MulMonotone(i + 1, j, s);
      MulStep(i, s);
    }
    forall j | 0 <= j < |times|
      ensures start <= times[j]
    {
      MulMonotone(0, j, s);
    }
  }

  /** A time is in a same-day schedule exactly when it lies between start and end on the grid of steps from start. */
  lemma SameDayMembership(start: TimeOfDay, end: TimeOfDay, freq: int, times: seq<int>, t: int)
    requires freq > 0 && IsSameDaySchedule(start, end, freq, times)
    ensures t in times <==> start <= t <= end && (t - start) % (60 * freq) == 0
  {
    var s := 60 * freq;
    if t in times {
      var j :| 0 <= j < |times| && times[j] == t;
      MulMod(j, s);
      MulMonotone(0, j, s);
    }
    if start <= t <= end && (t - start) % s == 0 {
      var j := (t - start) / s;
      DivBounds(t - start, s);
      MulMonotone(j, -1, s);
      if j >= |times| {
        MulMonotone(|times|, j, s);
      }
      assert times[j] == t;
    }
  }

  /** When the first step past `end` is before midnight, the loop as written and the same-day loop agree. */
  lemma SameDayAgreesWithoutWrap(start: TimeOfDay, end: TimeOfDay, freq: int, xs: seq<int>, ys: seq<int>)
    requires 0 < freq && start <= end
    requires start + NoWrapCount(start, end, freq) * (60 * freq) < 86400
    requires IsSchedule(start, end, freq, xs) && IsSameDaySchedule(start, end, freq, ys)
    ensures xs == ys
  {
    ScheduleWithoutWrap(start, end, freq, xs);
    SameDayCount(start, end, freq, ys);
    forall j | 0 <= j < |xs|
      ensures xs[j] == ys[j]
    {
    }
  }

  /** Hourly from 09:00 to 23:59 the same-day schedule is the fifteen hours from 09:00 to 23:00. */
  lemma HourlyUntilMidnightSameDay(start: TimeOfDay, end: TimeOfDay, freq: int, times: seq<int>)
    requires start == 32400 && end == 86340 && freq == 60
    requires IsSameDaySchedule(start, end, freq, times)
    ensures |times| == 15 && times[0] == 32400 && times[14] == 82800
  {
    SameDayCount(start, end, freq, times);
    assert NoWrapCount(start, end, freq) == 15;
    assert times[14] == start + 14 * 3600;
  }

  datatype IntradayTriggerRequirements =
    IntradayTriggerRequirements(startTime: TimeOfDay, endTime: TimeOfDay, frequency: int)

  class IntradayPeriodicTrigger {
    const requirements: IntradayTriggerRequirements
    const actions: seq<Action>
    const risks: seq<Risk>
    const calcType: CalcType
    const triggerTimes: seq<TimeOfDay>

    /** The trigger times are the same-day schedule of the requirements. */
    ghost predicate Valid()
    {
      && requirements.frequency > 0
      && IsSameDaySchedule(requirements.startTime, requirements.endTime, requirements.frequency, triggerTimes)
    }

    /** Builds the trigger times from start to end, every `frequency` minutes. */
    constructor (requirements: IntradayTriggerRequirements, actions: seq<Action>)
      requires requirements.frequency > 0
      ensures Valid()
      ensures this.requirements == requirements && this.actions == actions
      ensures risks == ActionRisks(actions) && calcType == Simple
    {
      this.requirements := requirements;
      this.actions := actions;
      this.risks := ActionRisks(actions);
      this.calcType := Simple;
      var times := BuildSameDayTriggerTimes(requirements.startTime, requirements.endTime, requirements.frequency);
      this.triggerTimes := times;
    }

    /** Fires when the time of day of `state` is between start and end on the grid of steps from start. */
    predicate HasTriggered(state: DateTime)
      requires Valid()
      ensures HasTriggered(state) <==>
        && requirements.startTime <= state.time <= requirements.endTime
        && (state.time - requirements.startTime) % (60 * requirements.frequency) == 0
    {
      SameDayMembership(requirements.startTime, requirements.endTime, requirements.frequency, triggerTimes, state.time);
      state.time in triggerTimes
    }
  }

  // ---------------------------------------------------------------------
  // Market and strategy-risk triggers
  // ---------------------------------------------------------------------

  datatype MktTriggerRequirements =
    MktTriggerRequirements(dataSource: Date -> int, triggerLevel: int, direction: TriggerDirection)

  class MktTrigger {
    const requirements: MktTriggerRequirements
    const actions: seq<Action>
    const risks: seq<Risk>
    const calcType: CalcType

    constructor (requirements: MktTriggerRequirements, actions: seq<Action>)
      ensures this.requirements == requirements && this.actions == actions
      ensures risks == ActionRisks(actions) && calcType == Simple
    {
      this.requirements := requirements;
      this.actions := actions;
      this.risks := ActionRisks(actions);
      this.calcType := Simple;
    }

    /** Fires when the market data on `state` stands to the level as the direction says. */
    predicate HasTriggered(state: Date)
      ensures HasTriggered(state) <==>
        Relation(requirements.dataSource(state), requirements.triggerLevel) == requirements.direction
    {
      Fires(requirements.direction, requirements.dataSource(state), requirements.triggerLevel)
    }
  }

  datatype RiskTriggerRequirements =
    RiskTriggerRequirements(risk: Risk, triggerLevel: int, direction: TriggerDirection)

  /** The results of a backtest: the value of each risk on each date. */
  type BackTest = (Date, Risk) -> int

  class StrategyRiskTrigger {
    const requirements: RiskTriggerRequirements
    const actions: seq<Action>
    var risks: seq<Risk>
    var calcType: CalcType

    /** Path dependent, and needs the risks of its actions followed by the risk it watches. */
    constructor (requirements: RiskTriggerRequirements, actions: seq<Action>)
      ensures this.requirements == requirements && this.actions == actions
      ensures risks == ActionRisks(actions) + [requirements.risk]
      ensures calcType == PathDependent
    {
      this.requirements := requirements;
      this.actions := actions;
      this.risks := ActionRisks(actions);
      this.calcType := Simple;
      new;
      calcType := PathDependent;
      risks := risks + [requirements.risk];
    }

    /** Fires when the watched risk on `state` stands to the level as the direction says. */
    predicate HasTriggered(state: Date, backtest: BackTest)
      ensures HasTriggered(state, backtest) <==>
        Relation(backtest(state, requirements.risk), requirements.triggerLevel) == requirements.direction
    {
      Fires(requirements.direction, backtest(state, requirements.risk), requirements.triggerLevel)
    }
  }

  /** Market and strategy-risk triggers apply one and the same threshold rule. */
  lemma SameThresholdRule(mkt: MktTrigger, risk: StrategyRiskTrigger, state: Date, backtest: BackTest)
    requires mkt.requirements.direction == risk.requirements.direction
    requires mkt.requirements.triggerLevel == risk.requirements.triggerLevel
    requires mkt.requirements.dataSource(state) == backtest(state, risk.requirements.risk)
    ensures mkt.HasTriggered(state) == risk.HasTriggered(state, backtest)
  {
  }

  // ---------------------------------------------------------------------
  // Aggregate trigger
  // ---------------------------------------------------------------------

  /** A trigger as the aggregate sees it: its actions and its firing rule on a state. */
  datatype SubTrigger<!S> = SubTrigger(actions: seq<Action>, hasTriggered: S -> bool)

  /** The actions of every trigger, in trigger order. */
  function ConcatActions<S>(triggers: seq<SubTrigger<S>>): (actions: seq<Action>)
  {
    if triggers == [] then []
    else ConcatActions(triggers[..|triggers| - 1]) + triggers[|triggers| - 1].actions
  }

  /** The risks of every trigger's actions, in trigger order. */
  function ConcatRisks<S>(triggers: seq<SubTrigger<S>>): (risks: seq<Risk>)
  {
    if triggers == [] then []
    else ConcatRisks(triggers[..|triggers| - 1]) + ActionRisks(triggers[|triggers| - 1].actions)
  }

  /** An action belongs to the aggregate exactly when it belongs to one of the triggers. */
  lemma {:induction false} ConcatActionsMembers<S>(triggers: seq<SubTrigger<S>>, a: Action)
    ensures a in ConcatActions(triggers) <==> exists i :: 0 <= i < |triggers| && a in triggers[i].actions
  {
    if triggers != [] {
      var init := triggers[..|triggers| - 1];
      ConcatActionsMembers(init, a);
      assert forall i :: 0 <= i < |init| ==> init[i] == triggers[i];
    }
  }

  /**
   * The aggregate's risks are those of its children's actions, in order; a
   * child's own extra risk (a strategy-risk trigger's) is not among them.
   */
  lemma {:induction false} AggregateRisks<S>(triggers: seq<SubTrigger<S>>)
    ensures ActionRisks(ConcatActions(triggers)) == ConcatRisks(triggers)
  {
    if triggers != [] {
      var init := triggers[..|triggers| - 1];
      AggregateRisks(init);
      ActionRisksAppend(ConcatActions(init), triggers[|triggers| - 1].actions);
    }
  }

  class AggregateTrigger<S> {
    const triggers: seq<SubTrigger<S>>
    const actions: seq<Action>
    const risks: seq<Risk>
    const calcType: CalcType

    constructor (triggers: seq<SubTrigger<S>>)
      ensures this.triggers == triggers
      ensures actions == ConcatActions(triggers)
      ensures risks == ActionRisks(actions) && calcType == Simple
    {
      var acc := [];
      var i := 0;
      while i < |triggers|
        invariant 0 <= i <= |triggers|
        invariant acc == ConcatActions(triggers[..i])
      {
        assert triggers[..i + 1][..i] == triggers[..i];
        acc := acc + triggers[i].actions;
        i := i + 1;
      }
      assert triggers[..|triggers|] == triggers;
      this.triggers := triggers;
      this.actions := acc;
      this.risks := ActionRisks(acc);
      this.calcType := Simple;
    }

    /**
     * Fires when every child fires (vacuously with no children). Children are
     * asked in order and asking stops at the first that does not fire;
     * `asked` is how many were asked.
     */
    method HasTriggered(state: S) returns (fired: bool, ghost asked: nat)
      ensures fired <==> forall i :: 0 <= i < |triggers| ==> triggers[i].hasTriggered(state)
      ensures asked <= |triggers|
      ensures fired ==> asked == |triggers|
      ensures !fired ==> 0 < asked && !triggers[asked - 1].hasTriggered(state)
      ensures forall i :: 0 <= i < asked - 1 ==> triggers[i].hasTriggered(state)
    {
      var i := 0;
      while i < |triggers|
        invariant 0 <= i <= |triggers|
        invariant forall j :: 0 <= j < i ==> triggers[j].hasTriggered(state)
      {
        if !triggers[i].hasTriggered(state) {
          return false, i + 1;
        }
        i := i + 1;
      }
      return true, |triggers|;
    }
  }
}
