/** The sliding-window error monitor (`TooMuchError`) as a fold over a trace
    of error arrivals, each stamped with the time it was caught, and a final
    close of the error channel.

    The window starts as `n` zero times (the slice is made with length `n`),
    each error appends its time and, once the window holds at least `n`
    stamps, compares the newest stamp with the one `back` places before it and
    then drops the oldest. As written the compared slot is `len - 10`, so
    `back` is 9 whatever `n` is; the intended window compares the newest with
    the one `n - 1` places before it. */
module ErrorRate {
  import opened Monitor

  /** An item on the error channel (its content is irrelevant) caught at time
      `t`, or the channel being closed. */
  datatype ErrEvent = Err(t: int) | Closed

  /** A window slot: the zero time the slice is seeded with, or a catch time. */
  datatype Stamp = Seed | At(t: int)

  /** The monitor loop: still receiving with its window, returned after the
      close, or stopped by an index-out-of-range panic. */
  datatype State = Running(window: seq<Stamp>) | Terminated | Crashed

  /** Callbacks invoked so far and the loop's state. */
  datatype Trace = Trace(calls: seq<Call>, state: State)

  function Seeds(n: nat): (r: seq<Stamp>)
    ensures |r| == n && forall i :: 0 <= i < n ==> r[i] == Seed
  {
    seq(n, _ => Seed)
  }

  function Stamps(ts: seq<int>): (r: seq<Stamp>)
    ensures |r| == |ts| && forall i :: 0 <= i < |ts| ==> r[i] == At(ts[i])
  {
    seq(|ts|, i requires 0 <= i < |ts| => At(ts[i]))
  }

  /** The trace of errors caught at the times `ts`, in order, with no close. */
  function Errs(ts: seq<int>): (r: seq<ErrEvent>)
    ensures |r| == |ts| && forall i :: 0 <= i < |ts| ==> r[i] == Err(ts[i])
  {
    seq(|ts|, i requires 0 <= i < |ts| => Err(ts[i]))
  }

  /** The span between two window slots is shorter than |limit|. A slot still
      holding the zero time never is: the difference from the zero time
      saturates at the largest duration, which no |limit| exceeds. */
  predicate Within(last: Stamp, recent: Stamp, limit: int)
  {
    last.At? && recent.At? && Abs(last.t - recent.t) < Abs(limit)
  }

  /** One error caught at time `t`: append, and once the window holds at
      least `n` stamps compare the newest with the slot `back` before it,
      alarm when they are closer than |limit|, and drop the oldest slot.
      A slot before the start of the window is an index-out-of-range panic. */
  function Observe(n: nat, back: nat, limit: int, window: seq<Stamp>, t: int): (r: Trace)
    ensures r.calls == [] || r.calls == [Alarm]
    ensures r.state.Terminated? == false
    ensures |window| == n ==> (r.state.Crashed? <==> back > n)
    ensures |window| == n && back <= n ==> r.state.Running? && |r.state.window| == n
    ensures |window| == n && back <= n ==> r.state.window == (window + [At(t)])[1..]
    ensures |window| == n && back <= n ==>
      (r.calls == [Alarm] <==> Within(At(t), (window + [At(t)])[n - back], limit))
  {
    var grown := window + [At(t)];
    if |grown| >= n then
      if |grown| - 1 - back < 0 then Trace([], Crashed)
      else
        var breach := Within(grown[|grown| - 1], grown[|grown| - 1 - back], limit);
        Trace(if breach then [Alarm] else [], Running(grown[1..]))
    else Trace([], Running(grown))
  }

  /** One event of the trace; once the loop has returned or crashed,
      later events are never received. */
  function Step(n: nat, back: nat, limit: int, tr: Trace, e: ErrEvent): (r: Trace)
    ensures !tr.state.Running? ==> r == tr
    ensures tr.state.Running? && e.Closed? ==> r == Trace(tr.calls + [StreamClosed], Terminated)
    ensures |r.calls| >= |tr.calls| && r.calls[..|tr.calls|] == tr.calls
    ensures tr.state.Running? && e.Err? ==>
      var o := Observe(n, back, limit, tr.state.window, e.t);
      r.calls == tr.calls + o.calls && r.state == o.state
  {
    match tr.state
    case Running(w) =>
      (match e
       case Closed => Trace(tr.calls + [StreamClosed], Terminated)
       case Err(t) =>
         var o := Observe(n, back, limit, w, t);
         Trace(tr.calls + o.calls, o.state))
    case _ => tr
  }

  /** The bookkeeping every run keeps: `closedFunc` is in the calls exactly
      when the loop has returned, and then once and last; a crash needs a
      compared slot before the window; a running window keeps `n` slots. */
  predicate WellKept(n: nat, back: nat, r: Trace)
  {
    && (r.state.Terminated? <==> StreamClosed in r.calls)
    && (r.state.Terminated? ==> r.calls[|r.calls| - 1] == StreamClosed && Count(r.calls, StreamClosed) == 1)
    && (r.state.Crashed? ==> back > n)
    && (r.state.Running? ==> |r.state.window| == n)
  }

  /** One step keeps the bookkeeping. */
  lemma StepKeeps(n: nat, back: nat, limit: int, tr: Trace, e: ErrEvent)
    requires WellKept(n, back, tr)
    ensures WellKept(n, back, Step(n, back, limit, tr, e))
  {
    var r := Step(n, back, limit, tr, e);
    if tr.state.Running? {
      assert StreamClosed !in tr.calls;
      if e.Closed? {
        assert r.calls[..|r.calls| - 1] == tr.calls;
      } else {
        var o := Observe(n, back, limit, tr.state.window, e.t);
        assert StreamClosed !in tr.calls + o.calls;
      }
    }
  }

  /** The monitor loop run over a whole trace, from the seeded window. */
  function Run(n: nat, back: nat, limit: int, events: seq<ErrEvent>): (r: Trace)
    ensures WellKept(n, back, r)
    ensures back <= n ==> !r.state.Crashed?
    decreases |events|
  {
    if |events| == 0 then Trace([], Running(Seeds(n)))
    else
      var before := Run(n, back, limit, events[..|events| - 1]);
      StepKeeps(n, back, limit, before, events[|events| - 1]);
      Step(n, back, limit, before, events[|events| - 1])
  }

  /** `TooMuchError` as written: the compared slot is `len - 10`. A window
      of nine or more slots never panics and keeps its size; `closedFunc`
      is called exactly when the loop has returned, once and last. */
  function TooMuchError(n: nat, limit: int, events: seq<ErrEvent>): (r: Trace)
    ensures n >= 9 ==> !r.state.Crashed?
    ensures r.state.Running? ==> |r.state.window| == n
    ensures r.state.Terminated? <==> StreamClosed in r.calls
    ensures r.state.Terminated? ==> r.calls[|r.calls| - 1] == StreamClosed && Count(r.calls, StreamClosed) == 1
  {
    Run(n, 9, limit, events)
  }

  /** The window the tests of this monitor speak of ("the most recent 10
      errors", with 10 passed as `periodErrCount`): the newest stamp is
      compared with the one `n - 1` places before it, the span of the last
      `n` errors (a window of zero errors is treated as a window of one).
      It never panics. */
  function TooMuchErrorIntended(n: nat, limit: int, events: seq<ErrEvent>): (r: Trace)
    ensures !r.state.Crashed?
    ensures r.state.Running? ==> |r.state.window| == n
    ensures r.state.Terminated? <==> StreamClosed in r.calls
  {
    Run(n, if n == 0 then 0 else n - 1, limit, events)
  }

  /** Reference rule, stated on catch times alone: the error at index `i`
      alarms when there is an error `back` places earlier and the two were
      caught less than |limit| apart. */
  predicate Fires(ts: seq<int>, i: nat, back: nat, limit: int)
    requires i < |ts|
  {
    i >= back && Abs(ts[i] - ts[i - back]) < Abs(limit)
  }

  /** The callbacks the reference rule predicts for errors caught at `ts`. */
  function Expected(ts: seq<int>, back: nat, limit: int): (r: seq<Call>)
    ensures forall c :: c in r ==> c == Alarm
    decreases |ts|
  {
    if |ts| == 0 then []
    else Expected(ts[..|ts| - 1], back, limit) + (if Fires(ts, |ts| - 1, back, limit) then [Alarm] else [])
  }
}
