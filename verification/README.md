# Quit-aware channel primitives, error-rate and idle monitors, and the log-record builder

This project models two Go packages in Dafny.

The first is the channel toolkit `cchan`:
- cancellable send and receive (`SendOrQuit`, `ReceiveOrQuit`);
- result/error dispatch (`SendResult`, `SendResults`);
- drain, probe and guarded close (`WaitClosed`, `IsClosed`, `SafeClose`);
- two monitors: the sliding-window error-rate breaker `TooMuchError` and the idle watchdog `Timeout`.

The second is the log-record builder of `llog`: its setters, `Build` and the level list.

How the concurrent parts are made sequential:
- A channel is an immutable snapshot `Chan(buf, closed)`: the items sent and not yet received, and whether it was closed.
- The quit signal is a boolean, "already signalled".
- Once the priority check on quit has passed, a blocking `select` is resolved by a scheduler oracle `Race` (`DataFirst` or `QuitFirst`). `SendResults` takes one race per send, as a function from the send's index.
- Go runtime outcomes are explicit: `Run = Returns | BlocksForever | Panics`. Sending on a closed channel and closing a closed channel panic. A receive with no item and no close waits forever, because no other party sends in the model.
- The monitors are folds over traces. `TooMuchError` reads a trace of errors stamped with the time they were caught, then possibly a close. `Timeout` reads a trace of item arrivals and a close, each at a time in milliseconds from the call. Both produce the sequence of callbacks invoked (`Alarm` for `tooMuchErrFunc`/`timeoutFunc`, `StreamClosed` for `closedFunc`) and the loop's final state.
- The builder is a record; its package-level defaults, the request context (a map, with nil values absent) and the clock are parameters.

Files: `go_values.dfy` (Nilable, Run), `channel.dfy`, `dispatch.dfy`, `channel_laws.dfy`, `monitor.dfy`, `error_rate.dfy`, `error_rate_laws.dfy`, `watchdog.dfy`, `watchdog_laws.dfy`, `llog.dfy`, `llog_laws.dfy`.

Where the code's own names and tests promise more than its body does, the model follows the body and adds a corrected definition next to it:
- The tests of the error monitor (cchan/quit_test.go:15, 19 and 51) speak of "the most recent 10 errors" and pass that 10 as `periodErrCount`. So the window is the last `periodErrCount` errors, and the newest error should be compared with the one `periodErrCount - 1` places back. The body compares with slot `len - 10`, that is, always nine errors back.
- The name `SafeClose` promises a close that is safe to repeat. The body panics on a second call when the channel still buffers items, and it drops the oldest buffered item.

Both are listed under Findings.

## Model

| member | source | states |
|---|---|---|
| Channel.SendOrQuit | cchan/cchan.go:35-47 | A quit already signalled returns false with the channel unchanged. Otherwise the item is appended exactly when the data case wins (true), or nothing changes (false): no partial send. Reaching a closed channel panics. |
| Channel.ReceiveOrQuit | cchan/cchan.go:49-61 | A quit already signalled, or a quit that wins the race, gives (nil, false) with the channel untouched. When it returns, ok is true exactly when quit is not signalled, data wins and an item is buffered; then the head item is returned and removed. A closed, drained channel gives a non-nil pointer to the zero value with false. An open, empty channel waits forever when data is the chosen case. |
| Channel.IsClosed | cchan/cchan.go:75-86 | A buffered head is consumed and returned with closed = false. Closed and empty reports (true, nil). Open and empty reports (false, nil) and changes nothing. |
| Channel.SafeClose | cchan/cchan.go:88-97 | Panics exactly on a closed channel with buffered items. Otherwise the result is closed, and with items the head is dropped. |
| Channel.CloseOnce | cchan/cchan.go:88-97 | The intended idempotent close: the result is closed, keeps every buffered item, and a closed channel is unchanged. |
| Channel.WaitClosed | cchan/cchan.go:63-73 | Returns exactly when the channel is closed, yielding the whole buffer in order and leaving it empty. An open channel waits forever. |
| Dispatch.Accepted | cchan/cchan.go:25-31 | The number of sends accepted before the first that observes quit. Every send before it had the data case win. Unless all were accepted, the next one saw quit. |
| Dispatch.SendEach | cchan/cchan.go:25-31 | The channel gains exactly the accepted prefix of the items, in order. The result is true exactly when all were accepted. It panics exactly when the channel is closed and one send was accepted. |
| Dispatch.SendResult | cchan/cchan.go:10-18 | A non-nil error goes to the error channel only and the result channel is untouched. A nil error sends the result to the result channel only. At most one item is delivered, and true means it was delivered. It panics exactly when quit is not signalled, data wins and the chosen channel is closed. |
| Dispatch.SendResults | cchan/cchan.go:20-33 | A non-nil error is dispatched alone and the results are discarded. Otherwise the result channel gains the accepted prefix of the results in order, the error channel is untouched, and true means every result was delivered. With a non-nil error it panics exactly when quit is not signalled, the first race goes to data and the error channel is closed. |
| ChannelLaws.SendThenReceive | cchan/cchan.go:35-61 | Send then receive is FIFO. On an empty channel it returns the item just sent and restores the channel. |
| ChannelLaws.ProbeAgreesWithReceive | cchan/cchan.go:49-86 | When a receive would not wait, the probe reports the same item, channel and closed verdict. |
| ChannelLaws.AllAccepted | cchan/cchan.go:20-33 | With no quit and every race won by data, every send is accepted. |
| ChannelLaws.PipelineRoundTrip | cchan/cchan.go:20-73 | Results sent without cancellation, then closed and drained, come back complete and in order. |
| ChannelLaws.OneResultIsSendResult | cchan/cchan.go:10-33 | Dispatching a single result with SendResults is SendResult: the same channel is attempted, the same item delivered, the same panic raised. |
| ChannelLaws.SafeCloseTwiceWhenEmpty | cchan/cchan.go:88-97 | On an empty channel the guarded close can be repeated: both calls return and the second changes nothing. |
| ChannelLaws.SafeCloseTwicePanics | cchan/cchan.go:88-97 | On an open channel with two or more items, the second guarded close panics. |
| ChannelLaws.SafeCloseLosesHead | cchan/cchan.go:88-97 | On an open channel with items, a drain after the guarded close misses the oldest item. |
| ChannelLaws.CloseOnceIsIdempotent | cchan/cchan.go:88-97 | The intended close is idempotent, and a drain after it returns every buffered item. |
| ErrorRate.Observe | cchan/cchan.go:114-126 | On a window of n slots one error keeps n slots and slides by one. It alarms exactly when the compared slot is within the limit. It panics exactly when the compared slot lies before the window. |
| ErrorRate.Step | cchan/cchan.go:107-127 | An error on a running loop adds exactly the callbacks and state of Observe. A close calls closedFunc and ends the loop. After the loop ended, events change nothing. Calls only ever grow. |
| ErrorRate.StepKeeps | cchan/cchan.go:107-127 | One event keeps the bookkeeping: closedFunc is among the calls exactly when the loop has returned, then once and last; a panic needs a compared slot before the window; a running window keeps n slots. |
| ErrorRate.Run | cchan/cchan.go:104-128 | The whole loop keeps that bookkeeping, and a compared slot inside the window never panics. |
| ErrorRate.TooMuchError | cchan/cchan.go:99-128 | As written: with n >= 9 it never panics; a running window keeps n slots; closedFunc is called exactly when the loop returned, once and last. The exact alarms are stated by ErrorRateLaws.AsWrittenAlarms and the close by ErrorRateLaws.ClosedEndsRun. |
| ErrorRate.TooMuchErrorIntended | cchan/cchan.go:99-128 | Corrected window of the last n errors: it never panics for any n, keeps n slots, and calls closedFunc exactly when the loop returned. Its alarms are stated by ErrorRateLaws.IntendedAlarms. |
| ErrorRateLaws.SlideStep | cchan/cchan.go:104-126 | One error on the seeded history slides the window and alarms exactly as the reference rule fires. |
| ErrorRateLaws.WindowInvariant | cchan/cchan.go:104-127 | Between errors the window is the last n slots of n zero-time seeds followed by the catch times. The alarms are exactly those of the reference rule. |
| ErrorRateLaws.StopsForGood | cchan/cchan.go:108-112 | After the loop has returned or crashed, later events change nothing. |
| ErrorRateLaws.ClosedEndsRun | cchan/cchan.go:107-112 | A close calls closedFunc exactly once, as the last callback, after the predicted alarms. |
| ErrorRateLaws.CrashOnFirstError | cchan/cchan.go:117-119 | A compared slot before the window start panics on the first error with no callback. |
| ErrorRateLaws.ExpectedAlarms | cchan/cchan.go:117-124 | The reference rule predicts an alarm exactly when some error fires. |
| ErrorRateLaws.AsWrittenAlarms | cchan/cchan.go:117-124 | With n >= 9 the k-th error alarms exactly when k >= 10 and abs(t_k - t_(k-9)) < abs(limit), whatever n is. |
| ErrorRateLaws.AsWrittenCrashesBelowNine | cchan/cchan.go:105-119 | With n < 9 the first error is an index-out-of-range panic. |
| ErrorRateLaws.IntendedAlarms | cchan/cchan.go:117-124 | The corrected monitor alarms on the k-th error exactly when k >= n and abs(t_k - t_(k-n+1)) < abs(limit). |
| ErrorRateLaws.IntendedNeverCrashes | cchan/cchan.go:105-126 | The corrected monitor never panics and keeps a window of n slots. |
| ErrorRateLaws.AgreeAtTen | cchan/cchan.go:117-124 | With a window of ten the as-written and corrected monitors coincide. |
| ErrorRateLaws.HardCodedTenDisagrees | cchan/cchan.go:119 | With n = 20, ten errors in the same instant alarm as written but not in the corrected monitor. |
| ErrorRateLaws.NoneFire | cchan/cchan.go:117-124 | With no error firing, the reference rule predicts no callback. |
| ErrorRateLaws.BurstScenarios | cchan/quit_test.go:19-49 | Nine errors at once and a tenth after 0.8 s alarm. A tenth after 1.1 s does not. |
| ErrorRateLaws.RateChangeScenario | cchan/quit_test.go:51-69 | Ten errors 130 ms apart stay silent. Ten more 100 ms apart alarm. |
| Watchdog.Fired | cchan/cchan.go:135-137 | The number of timeouts before a signal is every multiple of the wait strictly before it. It is positive exactly when the gap exceeds the wait. |
| Watchdog.Due | cchan/cchan.go:135-137 | The race between the timer and the next signal: with a positive wait, a timeout is due exactly when the gap exceeds the wait, and the count covers every expiry strictly before the signal. With a non-positive wait the count is the scheduler's choice. |
| Watchdog.Step | cchan/cchan.go:133-145 | An item brings the timeouts due before it and re-arms with the steady duration at its arrival. A close brings the timeouts due, then closedFunc, and stops. After the close, signals change nothing. Calls only grow. |
| Watchdog.Timeout | cchan/cchan.go:130-146 | closedFunc is among the calls exactly when the loop has returned, and then once and last. A watching loop waits initDuration from the start or the steady duration. The exact timeouts are stated by WatchdogLaws.ArrivalsInvariant and the close by WatchdogLaws.ClosedEndsRun. |
| WatchdogLaws.ArrivalsInvariant | cchan/cchan.go:130-145 | The wait is initDuration until the first item and duration after, re-armed at the latest item. The calls are exactly the timeouts a reference sum predicts, gap by gap: the timer's expiries strictly before each item, or the scheduler's count when the wait is not positive. |
| WatchdogLaws.DuePositiveIffLate | cchan/cchan.go:133-144 | With positive waits the reference sum is positive exactly when some item arrived later than the wait in force. |
| WatchdogLaws.AlarmIffLate | cchan/cchan.go:133-144 | With positive waits timeoutFunc is called exactly when some item arrived later than the wait in force. |
| WatchdogLaws.StopsForGood | cchan/cchan.go:138-142 | After the close, later signals change nothing. |
| WatchdogLaws.ClosedEndsRun | cchan/cchan.go:138-142 | A close, for any waits, delivers the timeouts due before it, then closedFunc exactly once, last, and stops. |
| WatchdogLaws.Recurs | cchan/cchan.go:135-137 | A timeout re-arms with the same wait: a silence longer than m waits gives at least m timeouts. |
| WatchdogLaws.RepeatScenario | cchan/cchan.go:135-136 | With waits of 1 s and 0.5 s, items at 0 s and 1.6 s bring three timeouts: the timer re-arms after each. |
| WatchdogLaws.ZeroWaitStillReceives | cchan/cchan.go:133-144 | With a zero initial wait the item and the close are still received: after the scheduler's timeouts, the item re-arms with the steady wait, and the close calls closedFunc. |
| WatchdogLaws.GraceScenarios | cchan/quit_test.go:76-124 | With 1 s initial and 0.5 s steady wait: silence to 1.2 s alarms, an item at 0.8 s does not, a 0.6 s gap alarms, a 0.4 s gap does not. |
| WatchdogLaws.RateChangeScenario | cchan/quit_test.go:126-147 | Items every 0.3 s and then every 0.4 s stay silent. A following 1 s gap alarms. |
| LLog.Values | llog/llog.go:23-25 | Five distinct level names, each declared level at its severity rank. INFO is among them and the unset level is not. |
| LLog.Adjoin | llog/llog.go:97-99 | The tag is present afterwards and nothing else is added. Existing order is a prefix, a present tag changes nothing, and distinctness is kept. |
| LLog.SetLevel | llog/llog.go:82-85 | Replaces the level and nothing else. |
| LLog.SetMsg | llog/llog.go:87-90 | Replaces the message and nothing else. |
| LLog.AddTag | llog/llog.go:92-102 | A nil list becomes non-nil. The tag is appended only if absent, existing order is preserved, no duplicate is introduced, and other fields are unchanged. |
| LLog.SetTags | llog/llog.go:104-107 | Replaces the tag list wholesale, nil included, and nothing else. |
| LLog.PutData | llog/llog.go:109-115 | A nil map becomes non-nil and key maps to value. Every other key keeps its presence and value, and other fields are unchanged. |
| LLog.SetDatas | llog/llog.go:117-120 | Replaces the data map wholesale, nil included, and nothing else. |
| LLog.AppendAbsent | llog/llog.go:141-145 | The original tags stay a prefix and every default tag is present. Appended tags were absent before and are pairwise distinct. |
| LLog.ContextDatas | llog/llog.go:147-152 | Holds exactly the default keys present in the context, with the context's values. |
| LLog.Build | llog/llog.go:128-168 | An unset level becomes INFO, otherwise it is kept. Msg and metadata pass through. Tags extend the original by the absent defaults, each appended once; their order, the order of the default tags, is stated by LLogLaws.DefaultTagsAreTagCalls. Datas hold the builder's keys plus the context's default keys, with the builder winning. The builder keeps the built values. |
| LLogLaws.StartersAreSetters | llog/llog.go:58-80 | Each package-level starter is the matching setter on an empty builder. |
| LLogLaws.SettersOverwrite | llog/llog.go:82-120 | For each whole-field setter (Level, Msg, Tags, Datas) the last write wins, and every pair of them commutes. |
| LLogLaws.AddTagIdempotent | llog/llog.go:92-102 | Adding a tag twice equals adding it once. |
| LLogLaws.SetTagsKeepsDuplicates | llog/llog.go:104-107 | Tags can introduce a duplicate, where Tag cannot. |
| LLogLaws.DefaultTagsAreTagCalls | llog/llog.go:141-145 | The default-tag loop of Build equals calling Tag once per default tag. |
| LLogLaws.AppendAbsentPresent | llog/llog.go:141-145 | When every default tag is already present, the loop changes nothing. |
| LLogLaws.BuildIdempotent | llog/llog.go:128-168 | Building again from the builder Build leaves behind gives the same record. |

## Left out

- Goroutine scheduling and the runtime's random choice between ready select cases are replaced by the `Race` oracle. Channel capacity is not modelled: a send the data case wins is always accepted.
- The quit channel is modelled as closed or not. A quit channel carrying a single sent value, which only one receiver consumes, is not modelled.
- Wall-clock time is not modelled. Times are integer milliseconds from the call, and absolute value is mathematical. `time.Duration` saturation in `Sub` is modelled only where it matters: the difference from the zero time that seeds the window never falls under the limit.
- The callbacks `tooMuchErrFunc`, `timeoutFunc` and `closedFunc` are assumed to return. In Go a callback that panics or blocks also stops the monitor loop (cchan/cchan.go:110, 123, 137, 140); the model does not represent that.
- Watchdog.Fired: a signal arriving at the exact instant a timeout is due is taken first. Go picks between the two at random.
- The watchdog ignores time spent inside callbacks.
- Watchdog.Due: with a non-positive wait the timer has already expired at every loop entry, and Go picks at random between it and a ready signal. How many timeouts fire before each signal is then the scheduler's choice, the parameter `storm`. Signals are still received. An infinite run of timeouts with no signal ever taken is not modelled.
- `ptr.IsNil` uses reflection and is not part of this model. A nil error is `Nil`.
- The deferred `log.Default().Println` in `TooMuchError` is left out. So is the `errCount` counter, which is incremented but never read.
- The `int(periodErrCount)` conversion of a `uint` is taken as exact.
- `LogTime.MarshalText` / `UnmarshalText` are left out, because RFC 3339 formatting is done by Go's `time` package.
- `LLogBuilder.Log` and the `Log` sink are left out, because the sink is defined outside these files.
- `defaultTags`, `defaultContextDataKeys` and `metadatas` are defined outside these files. They are the `Defaults` parameter.
- Go pointers and aliasing are not modelled. In Go, `Build` leaves the builder and the record holding the same data map (llog/llog.go:158 and 164), so a later `Data` call on the builder also changes the built record. Here both are values: the record keeps the data it was built with. `Build` returns the builder as it leaves it.
- `context.Context` is a map from key to non-nil value.
- cchan/quit_test.go calls the monitors with four arguments while they take five. Its scenarios appear only as example traces.

## Findings

| source | as written | input that shows it | evidently intended | confidence | as-written member | corrected member |
|---|---|---|---|---|---|---|
| cchan/cchan.go:88-97 | the probing receive returns ok = true for a buffered item even on a closed channel, so `close` runs a second time | an open channel holding two items, closed with `SafeClose` twice: the second call panics | as its name says, a close that is safe to repeat: closing an already closed channel does nothing | high (not executed) | ChannelLaws.SafeCloseTwicePanics | ChannelLaws.CloseOnceIsIdempotent |
| cchan/cchan.go:90-92 | the probing receive consumes the head item before closing | an open channel holding [x, y]: after `SafeClose` a drain yields only [y] | a close that is safe, as the name `SafeClose` says, loses no buffered item | high (not executed) | ChannelLaws.SafeCloseLosesHead | ChannelLaws.CloseOnceIsIdempotent |
| cchan/cchan.go:119 | the compared slot is `len - 10` whatever `periodErrCount` is | periodErrCount = 20, ten errors in the same instant: the breach callback fires after ten errors | compare with slot `len - periodErrCount` (a `periodErrCount` of 0 treated as a window of one), the span of "the most recent 10 errors" when 10 is passed as periodErrCount (cchan/quit_test.go:15, 19, 51) | high (not executed) | ErrorRateLaws.HardCodedTenDisagrees | ErrorRateLaws.IntendedAlarms |
| cchan/cchan.go:105-119 | with fewer than nine seeded slots the index `len - 10` is negative | periodErrCount = 5 and one error: index out of range panic | any window size is accepted | high (not executed) | ErrorRateLaws.AsWrittenCrashesBelowNine | ErrorRateLaws.IntendedNeverCrashes |
