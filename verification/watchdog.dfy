/** The idle watchdog (`Timeout`) as a fold over a timed trace of the
    processed channel: items arriving and the channel closing, each at a time
    measured from the call. The loop races a timer armed with the current
    wait against the channel; a timeout calls `timeoutFunc` and re-arms with
    the same wait, an arrival switches the wait to the steady `duration` and
    re-arms, and a close calls `closedFunc` and returns. */
module Watchdog {
  import opened Monitor

  /** An item received from the processed channel at time `t`, or the
      channel found closed at time `t`. */
  datatype Signal = Arrive(t: int) | Close(t: int)

  /** The loop: waiting with the current wait and the time its timer was
      last armed by a loop entry that was not a timeout, or returned after
      the close. */
  datatype State = Watching(wait: int, armedAt: int) | Stopped

  /** Callbacks invoked so far and the loop's state. */
  datatype Trace = Trace(calls: seq<Call>, state: State)

  /** `k` timeout callbacks in a row. */
  function Alarms(k: nat): (r: seq<Call>)
    ensures |r| == k && forall i :: 0 <= i < k ==> r[i] == Alarm
  {
    seq(k, _ => Alarm)
  }

  /** How many times a timer armed at `armedAt` with a positive `wait` fires
      and is re-armed before a signal at `t`: every multiple of `wait`
      strictly before `t` (a signal at the very instant of a timeout is
      taken first). */
  function Fired(armedAt: int, wait: int, t: int): (k: nat)
    requires wait > 0
    ensures k > 0 <==> t - armedAt > wait
    ensures k == 0 || armedAt + k * wait < t
    ensures t <= armedAt + (k + 1) * wait
  {
    if t - armedAt <= 0 then 0 else (t - armedAt - 1) / wait
  }

  /** Timeouts before a signal at `t`. With a positive wait they are the
      timer's expiries before `t`. With a non-positive wait the timer has
      expired at every loop entry, and the select picks at random between it
      and the signal once the signal is ready, so the count is the
      scheduler's choice `storm`. */
  function Due(armedAt: int, wait: int, t: int, storm: nat): (k: nat)
    ensures wait > 0 ==> (k > 0 <==> t - armedAt > wait)
    ensures wait > 0 ==> (k == 0 || armedAt + k * wait < t) && t <= armedAt + (k + 1) * wait
    ensures wait <= 0 ==> k == storm
  {
    if wait > 0 then Fired(armedAt, wait, t) else storm
  }

  /** One signal of the trace: the timeouts due before it, then the signal
      itself; `storm` is the scheduler's count for a non-positive wait.
      Once the loop has returned, later signals are never seen. */
  function Step(duration: int, storm: nat, tr: Trace, e: Signal): (r: Trace)
    ensures tr.state.Stopped? ==> r == tr
    ensures |r.calls| >= |tr.calls| && r.calls[..|tr.calls|] == tr.calls
    ensures tr.state.Watching? && e.Arrive? ==>
      r.state == Watching(duration, e.t)
      && r.calls == tr.calls + Alarms(Due(tr.state.armedAt, tr.state.wait, e.t, storm))
    ensures tr.state.Watching? && e.Close? ==>
      r.state == Stopped
      && r.calls == tr.calls + Alarms(Due(tr.state.armedAt, tr.state.wait, e.t, storm)) + [StreamClosed]
  {
    match tr.state
    case Watching(w, a) =>
      var due := Alarms(Due(a, w, e.t, storm));
      (match e
       case Arrive(t) => Trace(tr.calls + due, Watching(duration, t))
       case Close(t) => Trace(tr.calls + due + [StreamClosed], Stopped))
    case Stopped => tr
  }

  /** `Timeout(initDuration, duration, ...)` over a whole trace: armed with
      the initial wait at time 0; `storm(k)` is the scheduler's count of
      timeouts before the k-th signal when the wait is non-positive.
      The loop has returned exactly when `closedFunc` was called, and then
      it was called once, last; while it runs, the wait is the initial one
      armed at the call, or the steady one. */
  function Timeout(initDuration: int, duration: int, storm: nat -> nat, events: seq<Signal>): (r: Trace)
    ensures r.state.Stopped? <==> StreamClosed in r.calls
    ensures r.state.Stopped? ==> r.calls[|r.calls| - 1] == StreamClosed && Count(r.calls, StreamClosed) == 1
    ensures r.state.Watching? ==> r.state == Watching(initDuration, 0) || r.state.wait == duration
    decreases |events|
  {
    if |events| == 0 then Trace([], Watching(initDuration, 0))
    else
      var k := |events| - 1;
      var before := Timeout(initDuration, duration, storm, events[..k]);
      var r := Step(duration, storm(k), before, events[k]);
      StepClosesOnce(duration, storm(k), before, events[k]);
      r
  }

  /** One step keeps the bookkeeping of `closedFunc`: it is in the calls
      exactly when the loop has returned, and then once and last. */
  lemma StepClosesOnce(duration: int, storm: nat, tr: Trace, e: Signal)
    requires tr.state.Stopped? <==> StreamClosed in tr.calls
    requires tr.state.Stopped? ==> tr.calls[|tr.calls| - 1] == StreamClosed && Count(tr.calls, StreamClosed) == 1
    ensures var r := Step(duration, storm, tr, e);
      (r.state.Stopped? <==> StreamClosed in r.calls)
      && (r.state.Stopped? ==> r.calls[|r.calls| - 1] == StreamClosed && Count(r.calls, StreamClosed) == 1)
  {
    var r := Step(duration, storm, tr, e);
    if tr.state.Watching? {
      var due := Alarms(Due(tr.state.armedAt, tr.state.wait, e.t, storm));
      assert StreamClosed !in tr.calls + due;
      if e.Close? {
        assert r.calls[..|r.calls| - 1] == tr.calls + due;
      }
    }
  }

  /** A trace of items arriving at the times `ts`, with no close. */
  function Arrivals(ts: seq<int>): (r: seq<Signal>)
    ensures |r| == |ts| && forall i :: 0 <= i < |ts| ==> r[i] == Arrive(ts[i])
  {
    seq(|ts|, i requires 0 <= i < |ts| => Arrive(ts[i]))
  }

  /** The wait in force for the signal at index `i` of an arrival trace:
      the initial wait before any item, the steady wait after one. */
  function WaitFor(initDuration: int, duration: int, i: nat): int
  {
    if i == 0 then initDuration else duration
  }

  /** When the timer for the signal at index `i` was last armed: at the
      call, or at the previous item. */
  function ArmedFor(ts: seq<int>, i: nat): int
    requires i <= |ts|
  {
    if i == 0 then 0 else ts[i - 1]
  }

  /** Reference count, stated on arrival times alone: the timeouts due in
      each gap between consecutive items (and before the first), summed. */
  function DueAlarms(initDuration: int, duration: int, storm: nat -> nat, ts: seq<int>): nat
    decreases |ts|
  {
    if |ts| == 0 then 0
    else
      var i := |ts| - 1;
      DueAlarms(initDuration, duration, storm, ts[..i])
        + Due(ArmedFor(ts, i), WaitFor(initDuration, duration, i), ts[i], storm(i))
  }

  /** Reference rule, stated on arrival times alone: the i-th arrival is late
      when more than the wait in force has passed since the previous arrival
      (or since the call, with the initial wait, for the first one). */
  predicate Late(initDuration: int, duration: int, ts: seq<int>, i: nat)
    requires i < |ts|
  {
    ts[i] - ArmedFor(ts, i) > WaitFor(initDuration, duration, i)
  }
}
