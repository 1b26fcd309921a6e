# Rate limiting and health monitoring of the TRMNL Discord bot, in Dafny

The bot keeps two pieces of in-memory state:

- **`RateLimitManager`** (`src/bot/rate_limiter.py`) gates each slash command: every handler in `src/bot/trmnl.py` calls `handle_rate_limit` first and `handle_command_error` when it fails. It keeps a global budget of 50 permits per one-second window and a map of per-bucket budgets learnt from Discord's `X-RateLimit-*` response headers. It also keeps a rolling count of invalid (403/404) responses over 10 minutes, which signals a pause at 10,000. Windows are refilled lazily, when the next check happens after they close. `RateLimitedCog` wraps the manager with two decisions: whether a command may proceed, and whether a failed command counts as an invalid request.
- **`HealthMonitor`** (`src/bot/health.py`) offers counters of executed commands and errors and remembers the last error. No command handler in the repository calls `increment_commands` or `log_error`, so the model states what these operations do when called. The monitor derives the uptime as hours, minutes and seconds and builds a metrics record. Its health check logs that record, plus a warning when there have been more than 50 errors. The check is wrapped in a five-minute loop that runs only once `start()` is called, and no caller in the repository calls it.

The model is a functional state machine. Each manager is an immutable datatype, and each operation is a pure function that takes the wall-clock time `now` as an exact `real` (seconds) and returns the next state together with the operation's answer.

Files:

- `options.dfy`: `Option`, standing for Python's `None` or a present value.
- `errors.dfy`: the exception classes the bot distinguishes (`Forbidden`, `NotFound`, anything else).
- `rate_limiter.dfy`: module `RateLimiter`, covering the manager state, its invariant `Valid`, `Init`, `UpdateRateLimits`, `CheckRateLimit` and `TrackInvalidRequest`.
- `rate_limiter_runs.dfy`: module `RateLimiterRuns`, with properties over sequences of calls and the scenarios of `tests/test_rate_limiter.py`.
- `cog.dfy`: module `Cog`, the decisions of `handle_rate_limit` and `handle_command_error`.
- `decimal.dfy`: module `Decimal`, Python's `str(int)` as used in the uptime text, with its read-back round trip.
- `health.dfy`: module `Health`, covering the monitor state, its operations, the alert rule, and properties over sequences of events.

Facts about the code that shape the model:

- The code has no daily report, no threshold table, no per-hour rates and no alert channel. The only alert is the `error_count > 50` warning in the health check.
- Header values are stored as given. Nothing is clamped, so a bucket may hold a negative `remaining` or a negative `limit`. `CheckRateLimit` therefore promises `0 <= remaining <= limit` only for a bucket that satisfied it before the check.
- No production code (`src/bot/trmnl.py`, `bot.py`) calls `update_rate_limits`; only `tests/test_rate_limiter.py` does. So in the running bot the bucket map stays empty and only the global budget applies. The model still covers advisories.
- The manager invariant `Valid` covers only what the code keeps: the global budget stays in `0..50`, the invalid count is non-negative, and every stored bucket has a non-zero limit.

Two observations about the code as written, both proved in the model:

- A bucket wait is positive unless the bucket was just refilled with a non-positive advertised limit. In that case the wait equals the advertised `reset_after`.
- `handle_rate_limit` tests the wait for truthiness, so a wait of `0.0` lets the command through without taking a permit. `Cog.HandleRateLimit` states for every input when this happens, and `Cog.ZeroWaitProceedsWithoutPermit` exhibits it with a bucket advertised with limit -1 and a zero window. It takes header values Discord does not send, so the model keeps the code's behaviour rather than correcting it.

## Model

| member | source | states |
|---|---|---|
| RateLimiter.Init | src/bot/rate_limiter.py:19-30 | A fresh manager has limit and remaining 50, an empty bucket map, invalid count 0, its global window closing 1 s after `now` and its invalid window 600 s after `now`, and it satisfies the manager invariant. |
| RateLimiter.UpdateRateLimits | src/bot/rate_limiter.py:32-49 | A bucket is stored exactly when all numeric headers convert, the bucket name is non-empty and the limit is non-zero. It then holds the header values, with missing ones read as 0, and closes its window `reset_after` after `now`. Otherwise the manager is unchanged. No other bucket and no global field changes, and the invariant is kept. |
| RateLimiter.CheckRateLimit | src/bot/rate_limiter.py:51-79 | The check proceeds iff global permits remain after the lazy refill and the named bucket, if known, has permits after its refill. Proceeding takes exactly one global permit and one bucket permit. A wait takes none. Other buckets, the limit and the invalid counter are untouched. A bucket is decremented only from a positive count. A global wait lasts until the global window closes, and a bucket wait until that bucket's window closes. A bucket's window is reopened `reset_after` after `now` exactly when it had elapsed. A global wait is always positive, and a non-positive wait only comes from a just-refilled bucket with a non-positive limit. The invariant is kept. |
| RateLimiter.TrackInvalidRequest | src/bot/rate_limiter.py:81-92 | The count restarts at 1 in a new 600 s window once the old window has closed, and grows by 1 otherwise. The call signals a pause iff the count reaches 10,000. Nothing else changes, and the invariant is kept. |
| RateLimiterRuns.ValidAfterAnyOps | src/bot/rate_limiter.py:18-92 | The manager invariant holds after any interleaving of advisories, checks and invalid responses. |
| RateLimiterRuns.GlobalBudgetWithinWindow | src/bot/rate_limiter.py:56-79 | Within one global window, with only unknown buckets, the i-th check proceeds iff i is below the permits left. Every later check gets a positive wait. |
| RateLimiterRuns.GlobalBudgetNeverExceeded | src/bot/rate_limiter.py:56-79 | Within one global window, whatever buckets are named, no more checks proceed than there were global permits. The permits left drop by exactly the number that proceeded. |
| RateLimiterRuns.FreshGlobalBudget | src/bot/rate_limiter.py:19-79 | In a fresh manager's first second, exactly the first 50 checks proceed. The 51st and later get a positive wait. |
| RateLimiterRuns.InvalidCountWithinWindow | src/bot/rate_limiter.py:81-92 | Within one invalid-request window the count grows by one per call, and the i-th call signals a pause iff the count it reaches is at least 10,000. |
| RateLimiterRuns.FreshInvalidCap | tests/test_rate_limiter.py:56-65 | In a fresh manager's first 10 minutes, calls 1 to 9,999 do not signal a pause, and call 10,000 and every later call do. |
| RateLimiterRuns.BucketOfTwo | tests/test_rate_limiter.py:32-54 | A bucket advertised with limit 2, remaining 2 and a 60 s window lets two checks proceed, and the third waits 60 s. It also states that a check after the window closes proceeds again, the point of `test_rate_limit_reset`, which `BucketResetsAfterWindow` models on its own values. |
| RateLimiterRuns.BucketResetsAfterWindow | tests/test_rate_limiter.py:67-85 | A bucket of one permit with a 0.1 s window lets one check proceed, the next waits 0.1 s, and a check once the window has closed proceeds again. |
| Cog.HandleRateLimit | src/bot/rate_limiter.py:99-116 | The state change is the check's. A command that proceeds took a global permit, unless the check answered a zero wait from a bucket with a non-positive limit and zero window. A refused command took no permit. For buckets with positive limits, proceeding is exactly the check's go-ahead. In general, the command proceeds iff global permits remain and the named bucket, if known, either has permits after its refill or was just refilled with a zero window, whose wait of `0.0` is falsy. |
| Cog.HandleCommandError | src/bot/rate_limiter.py:118-124 | A Forbidden or NotFound error is recorded exactly as `track_invalid_request` records it: the window restarts if it has closed, the count grows by one, and the warning is printed iff the count reaches 10,000. Any other error leaves the manager unchanged and does not print the invalid-request warning. The replies and their "Could not respond" and "Error in error handler" prints are left out. |
| Cog.WarningCountsOnlyInvalidResponses | src/bot/rate_limiter.py:118-124 | Within one invalid-request window, a run of failed commands counts only its Forbidden and NotFound errors. Failure i prints the warning iff it is one of them and the number of them so far brings the count to at least 10,000. |
| Cog.ZeroWaitProceedsWithoutPermit | src/bot/rate_limiter.py:67-116 | A bucket advertised with limit -1 and a zero window makes the check answer a wait of 0.0 without taking a permit, and the cog lets the command proceed. |
| Decimal.NatToDecimal | src/bot/health.py:43 | The rendering of a natural number is a non-empty string of decimal digits with no leading zero except for 0 itself. |
| Decimal.IntToDecimal | src/bot/health.py:43 | The rendering of a non-negative integer is digits whose decimal value is the number. A negative integer renders as a minus sign before the digits of its absolute value. The form is the shortest one: no leading zero except for 0 itself, and none after the minus sign. |
| Decimal.DecimalRoundTrip | src/bot/health.py:43 | Reading the digits of a rendered natural number gives the number back. |
| Decimal.IntToDecimalInjective | src/bot/health.py:43 | Distinct integers render to distinct texts. |
| Health.Init | src/bot/health.py:12-16 | A fresh monitor has both counters at 0, no last error, and starts at `now`. |
| Health.IncrementCommands | src/bot/health.py:29-30 | The command count grows by exactly 1, and nothing else changes. |
| Health.LogError | src/bot/health.py:32-37 | The error count grows by exactly 1. The last error becomes the error's text stamped with `now`. The command count and start time are unchanged. |
| Health.WholeSeconds | src/bot/health.py:41 | `int()` of the elapsed seconds truncates toward zero: the result is within one second of the input, on the side of zero. |
| Health.SplitSeconds | src/bot/health.py:41-42 | The split satisfies hours·3600 + minutes·60 + seconds = total, with minutes and seconds in 0..59 and hours non-negative for a non-negative total. |
| Health.GetUptime | src/bot/health.py:39-43 | The uptime recombines to the whole seconds since start, with minutes and seconds in 0..59 and hours non-negative once `now` is past the start. |
| Health.UptimeTextInjective | src/bot/health.py:39-43 | The text "{hours}h {minutes}m {seconds}s" (`UptimeText`) determines the uptime: distinct hour/minute/second splits render to distinct texts. |
| Health.UptimeSplitUnique | src/bot/health.py:41-42 | Any split of a total with minutes and seconds in 0..59 is the one `get_uptime` computes. |
| Health.UptimeAfterTwoHours | tests/test_health.py:46-53 | Two hours after start the uptime text is "2h 0m 0s". |
| Health.GetHealthMetrics | src/bot/health.py:45-53 | The metrics report the number of guilds, the two counters, the current last error and the uptime text of `now`. |
| Health.HealthCheck | src/bot/health.py:55-65 | The check logs the metrics first. It warns, quoting the error count, iff the error count exceeds 50 and the bot state could be read. On a successful read the log holds exactly one info entry, plus one warning when the count exceeds 50, and no error entry. A failed read is caught and logged as a single error entry. |
| Health.CountersCountEvents | src/bot/health.py:29-37 | After any sequence of events the counters have grown by exactly the number of commands and errors in it, so neither ever decreases. The start time never changes. |
| Health.LastErrorIsLatest | src/bot/health.py:32-37 | After any events the last error is the record of the latest error among them, or the earlier last error if there was none. |
| Health.MetricsAfterEvents | src/bot/health.py:45-53 | The metrics of a monitor started at `t0` report exactly the commands and errors since then, the latest error among them, the guild count and the uptime since `t0`. |
| Health.LastErrorKeptWithoutErrors | src/bot/health.py:32-37 | Events without an error leave the last error as it was. |
| Health.WarningAfterFiftyOneErrors | tests/test_health.py:76-88 | Starting fresh, after any sequence of events, the health check warns iff at least 51 errors were logged, so 51 errors trigger it and 50 do not. |

## Left out

- Discord I/O is not modelled: the "Rate Limited" embed, `send_message`, follow-ups, and the `print` and `logging` output. Only the decisions and log entries that the code takes remain.
- Python's `int()`/`float()` string conversion is not modelled. Each header arrives already converted, missing, or rejected (`Field`), and a missing header reads as 0 as `headers.get(key, 0)` does.
- Floating-point time is modelled with exact reals, so rounding in `now + reset_after` and in `global_reset - now` is not modelled. NaN and infinite header values, which `float()` accepts, are not modelled either.
- Uptime is computed from exact reals, not from the float `timedelta.total_seconds()` at microsecond resolution.
- The `isoformat()` rendering of the error timestamp is not modelled: the last error stores the instant `now` itself.
- The latency entry of the metrics is not modelled, because it is a float rendered with two decimals.
- `HealthMonitor._setup_task` and `start` (the five-minute `tasks.loop` scheduling) are not modelled. The model covers one health-check iteration.
- Health.HealthCheck: the only failure modelled inside the check is a failed read of the bot's state. It stands for any exception raised while the metrics are built.
- `RateLimitedCog.__init__` only creates a fresh manager, which is `RateLimiter.Init`.
- Concurrency is not modelled: every operation runs on one event loop without suspending, so each is one atomic step.
- `src/bot/trmnl.py` (command handlers), `bot.py` (bootstrap) and `src/bot/logger.py` (logging configuration) are not part of this model.
