/**
 * The health monitor: two counters and the most recent error, the uptime
 * derived from the start time, the metrics record, and the one alert rule of
 * the periodic health check.
 *
 * Wall-clock time is the parameter `now` (seconds, exact); the bot's live
 * guild list is a parameter too.
 */
module Health {
  import opened Options
  import opened Errors
  import opened Decimal

  /** More errors than this make the health check log a warning. */
  const HighErrorThreshold: nat := 50

  /** The most recent error: its text and when it was logged. */
  datatype ErrorRecord = ErrorRecord(error: string, time: real)

  /** The monitor's state (`HealthMonitor`). `guildsCount` is set at start and never read. */
  datatype Monitor = Monitor(
    startTime: real,
    commandCount: nat,
    errorCount: nat,
    lastError: Option<ErrorRecord>,
    guildsCount: nat)

  /** Uptime split into hours, minutes and seconds. */
  datatype Uptime = Uptime(hours: int, minutes: int, seconds: int)

  /** The record `get_health_metrics` returns (without the latency text). */
  datatype Metrics = Metrics(
    uptime: string,
    guilds: nat,
    commandsExecuted: nat,
    errors: nat,
    lastError: Option<ErrorRecord>)

  /** One line the health check logs. */
  datatype LogEntry =
    | HealthInfo(metrics: Metrics)  // "Health check: ..." at info level
    | HighErrorRate(errors: nat)    // "High error rate detected: N errors" at warning level
    | CheckFailed                   // "Error in health check: ..." at error level

  /** A monitor started at time `now` (`HealthMonitor.__init__`). */
  function Init(now: real): (mon: Monitor)
    ensures mon.commandCount == 0 && mon.errorCount == 0
    ensures mon.lastError.None?
    ensures mon.startTime == now
  {
    Monitor(now, 0, 0, None, 0)
  }

  /** `increment_commands`: one more command executed. */
  function IncrementCommands(mon: Monitor): (r: Monitor)
    ensures r.commandCount == mon.commandCount + 1
    ensures r.(commandCount := mon.commandCount) == mon
  {
    mon.(commandCount := mon.commandCount + 1)
  }

  /** `log_error`: one more error, which becomes the last error, stamped with `now`. */
  function LogError(mon: Monitor, err: Error, now: real): (r: Monitor)
    ensures r.errorCount == mon.errorCount + 1
    ensures r.lastError == Some(ErrorRecord(err.message, now))
    ensures r.(errorCount := mon.errorCount, lastError := mon.lastError) == mon
  {
    mon.(errorCount := mon.errorCount + 1, lastError := Some(ErrorRecord(err.message, now)))
  }

  /** Python's `int()` on a float: truncation toward zero. */
  function WholeSeconds(x: real): (n: int)
    ensures x >= 0.0 ==> 0 <= n && n as real <= x < n as real + 1.0
    ensures x < 0.0 ==> n <= 0 && n as real - 1.0 < x <= n as real
  {
    if x >= 0.0 then x.Floor else -((-x).Floor)
  }

  /**
   * Two nested `divmod`s: hours, then minutes and seconds of the remainder.
   * Python's `divmod` by a positive divisor floors, which is what Dafny's
   * `/` and `%` do for a positive divisor, so negative totals split the same way.
   */
  function SplitSeconds(total: int): (u: Uptime)
    ensures u.hours * 3600 + u.minutes * 60 + u.seconds == total
    ensures 0 <= u.minutes < 60 && 0 <= u.seconds < 60
    ensures total >= 0 ==> u.hours >= 0
  {
    var hours, remainder := total / 3600, total % 3600;
    Uptime(hours, remainder / 60, remainder % 60)
  }

  /** `get_uptime`, before formatting: the whole seconds since start, split. */
  function GetUptime(mon: Monitor, now: real): (u: Uptime)
    ensures u.hours * 3600 + u.minutes * 60 + u.seconds == WholeSeconds(now - mon.startTime)
    ensures 0 <= u.minutes < 60 && 0 <= u.seconds < 60
    ensures now >= mon.startTime ==> u.hours >= 0
  {
    SplitSeconds(WholeSeconds(now - mon.startTime))
  }

  /** The text `get_uptime` returns: "{hours}h {minutes}m {seconds}s". */
  function UptimeText(u: Uptime): string {
    IntToDecimal(u.hours) + ("h " + (IntToDecimal(u.minutes) + ("m " + (IntToDecimal(u.seconds) + "s"))))
  }

  /** `get_health_metrics`: a snapshot of the counters, the last error and the guild count. */
  function GetHealthMetrics<G>(mon: Monitor, guilds: seq<G>, now: real): (r: Metrics)
    ensures r.uptime == UptimeText(GetUptime(mon, now))
    ensures r.guilds == |guilds|
    ensures r.commandsExecuted == mon.commandCount
    ensures r.errors == mon.errorCount
    ensures r.lastError == mon.lastError
  {
    Metrics(UptimeText(GetUptime(mon, now)), |guilds|, mon.commandCount, mon.errorCount, mon.lastError)
  }

  /** True when the log holds the high-error warning. */
  predicate Warned(log: seq<LogEntry>) {
    exists i :: 0 <= i < |log| && log[i].HighErrorRate?
  }

  /**
   * `_health_check`: log the metrics, then warn if there have been more than
   * 50 errors. `bot` is the live guild list, or `None` when reading the bot's
   * state raised; that exception is caught and logged instead of the rest.
   * The monitor itself is only read.
   */
  function HealthCheck<G>(mon: Monitor, bot: Option<seq<G>>, now: real): (log: seq<LogEntry>)
    ensures Warned(log) <==> bot.Some? && mon.errorCount > 50
    ensures forall i :: 0 <= i < |log| && log[i].HighErrorRate? ==> log[i].errors == mon.errorCount
    ensures bot.Some? ==> 1 <= |log| && log[0] == HealthInfo(GetHealthMetrics(mon, bot.value, now))
    ensures bot.Some? ==> |log| == (if mon.errorCount > 50 then 2 else 1) && CheckFailed !in log
    ensures bot.None? ==> log == [CheckFailed]
  {
    match bot
    case None => [CheckFailed]
    case Some(guilds) =>
      var info := HealthInfo(GetHealthMetrics(mon, guilds, now));
      if mon.errorCount > HighErrorThreshold then
        var log := [info, HighErrorRate(mon.errorCount)];
        assert log[1].HighErrorRate?;
        log
      else [info]
  }

  // ---------------------------------------------------------------------------
  // Properties over sequences of operations
  // ---------------------------------------------------------------------------

  /**
   * Anything that changes the monitor. Reading the uptime, the metrics or
   * running the health check are pure functions of the monitor above, so
   * they need no event of their own.
   */
  datatype Event =
    | CommandRan
    | ErrorRaised(err: Error, at: real)

  /** The monitor after one event. */
  function Step(mon: Monitor, e: Event): Monitor {
    match e
    case CommandRan => IncrementCommands(mon)
    case ErrorRaised(err, at) => LogError(mon, err, at)
  }

  /** The monitor after the events in order. */
  function Replay(mon: Monitor, es: seq<Event>): Monitor
    decreases |es|
  {
    if |es| == 0 then mon else Replay(Step(mon, es[0]), es[1..])
  }

  /** How many of the events are executed commands. */
  function CommandsIn(es: seq<Event>): nat
    decreases |es|
  {
    if |es| == 0 then 0 else (if es[0].CommandRan? then 1 else 0) + CommandsIn(es[1..])
  }

  /** How many of the events are logged errors. */
  function ErrorsIn(es: seq<Event>): nat
    decreases |es|
  {
    if |es| == 0 then 0 else (if es[0].ErrorRaised? then 1 else 0) + ErrorsIn(es[1..])
  }

  /** The record of the most recent error among the events, if there is one. */
  function LastErrorIn(es: seq<Event>): Option<ErrorRecord>
    decreases |es|
  {
    if |es| == 0 then None
    else
      var later := LastErrorIn(es[1..]);
      if later.Some? then later
      else if es[0].ErrorRaised? then Some(ErrorRecord(es[0].err.message, es[0].at))
      else None
  }

  /**
   * The counters count exactly the commands and errors that happened, so
   * neither ever decreases; the start time never changes.
   */
  lemma {:induction false} CountersCountEvents(mon: Monitor, es: seq<Event>)
    ensures Replay(mon, es).commandCount == mon.commandCount + CommandsIn(es)
    ensures Replay(mon, es).errorCount == mon.errorCount + ErrorsIn(es)
    ensures Replay(mon, es).commandCount >= mon.commandCount
    ensures Replay(mon, es).errorCount >= mon.errorCount
    ensures Replay(mon, es).startTime == mon.startTime
    decreases |es|
  {
    if |es| > 0 {
      CountersCountEvents(Step(mon, es[0]), es[1..]);
    }
  }

  /** After events with no error among them the last error is the one before. */
  lemma {:induction false} LastErrorKeptWithoutErrors(mon: Monitor, es: seq<Event>)
    requires ErrorsIn(es) == 0
    ensures Replay(mon, es).lastError == mon.lastError
    decreases |es|
  {
    if |es| > 0 {
      LastErrorKeptWithoutErrors(Step(mon, es[0]), es[1..]);
    }
  }

  /** The last error held after the events is the latest error among them, or the earlier one if there was none. */
  lemma {:induction false} LastErrorIsLatest(mon: Monitor, es: seq<Event>)
    ensures LastErrorIn(es).Some? ==> Replay(mon, es).lastError == LastErrorIn(es)
    ensures LastErrorIn(es).None? ==> Replay(mon, es).lastError == mon.lastError
    decreases |es|
  {
    if |es| > 0 {
      LastErrorIsLatest(Step(mon, es[0]), es[1..]);
    }
  }

  /**
   * The metrics of a monitor started at `t0` report exactly the commands and
   * errors that happened since, and the latest error among them.
   */
  lemma {:induction false} MetricsAfterEvents<G>(t0: real, es: seq<Event>, guilds: seq<G>, now: real)
    ensures
      var r := GetHealthMetrics(Replay(Init(t0), es), guilds, now);
      && r.commandsExecuted == CommandsIn(es)
      && r.errors == ErrorsIn(es)
      && r.lastError == LastErrorIn(es)
      && r.guilds == |guilds|
      && r.uptime == UptimeText(SplitSeconds(WholeSeconds(now - t0)))
  {
    var mon := Replay(Init(t0), es);
    CountersCountEvents(Init(t0), es);
    LastErrorIsLatest(Init(t0), es);
    assert mon.lastError == LastErrorIn(es);
    assert GetUptime(mon, now) == SplitSeconds(WholeSeconds(now - t0)) by {
      assert mon.startTime == t0;
    }
  }

  /** Any split of the seconds with minutes and seconds below 60 is the one `get_uptime` computes. */
  lemma {:induction false} UptimeSplitUnique(total: int, h: int, m: int, s: int)
    requires h * 3600 + m * 60 + s == total
    requires 0 <= m < 60 && 0 <= s < 60
    ensures SplitSeconds(total) == Uptime(h, m, s)
  {
  }

  /**
   * A numeral followed by a unit letter can be cut back apart: two texts that
   * each put a unit letter right after a numeral have equal numerals and
   * equal rests.
   */
  lemma {:induction false} CutAtUnit(x: string, r: string, x2: string, r2: string, c: char)
    requires NumeralChars(x) && NumeralChars(x2)
    requires c == 'h' || c == 'm' || c == 's'
    requires 1 <= |r| && 1 <= |r2| && r[0] == c && r2[0] == c
    requires x + r == x2 + r2
    ensures x == x2 && r == r2
  {
    var t := x + r;
    assert x == t[..|x|] && x2 == t[..|x2|];
    assert r == t[|x|..] && r2 == t[|x2|..];
  }

  /** The uptime text determines the uptime: distinct splits render differently. */
  lemma {:induction false} UptimeTextInjective(u: Uptime, v: Uptime)
    requires UptimeText(u) == UptimeText(v)
    ensures u == v
  {
    var h, m, s := IntToDecimal(u.hours), IntToDecimal(u.minutes), IntToDecimal(u.seconds);
    var h2, m2, s2 := IntToDecimal(v.hours), IntToDecimal(v.minutes), IntToDecimal(v.seconds);
    var sec, sec2 := s + "s", s2 + "s";
    var min, min2 := m + ("m " + sec), m2 + ("m " + sec2);
    CutAtUnit(h, "h " + min, h2, "h " + min2, 'h');
    IntToDecimalInjective(u.hours, v.hours);
    assert min == ("h " + min)[2..] && min2 == ("h " + min2)[2..];
    CutAtUnit(m, "m " + sec, m2, "m " + sec2, 'm');
    IntToDecimalInjective(u.minutes, v.minutes);
    assert sec == ("m " + sec)[2..] && sec2 == ("m " + sec2)[2..];
    CutAtUnit(s, "s", s2, "s", 's');
    IntToDecimalInjective(u.seconds, v.seconds);
  }

  /** Two hours after start, the uptime reads "2h 0m 0s". */
  lemma {:induction false} UptimeAfterTwoHours(mon: Monitor, now: real)
    requires 7200.0 <= now - mon.startTime < 7201.0
    ensures UptimeText(GetUptime(mon, now)) == "2h 0m 0s"
  {
  }

  /**
   * Starting fresh, the health check warns exactly when more than 50 errors
   * have been logged, whatever else happened in between.
   */
  lemma {:induction false} WarningAfterFiftyOneErrors<G>(t0: real, es: seq<Event>, guilds: seq<G>, now: real)
    ensures Warned(HealthCheck(Replay(Init(t0), es), Some(guilds), now)) <==> ErrorsIn(es) >= 51
  {
    CountersCountEvents(Init(t0), es);
  }
}
