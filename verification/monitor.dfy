/** What the two channel monitors share: the callbacks they invoke and the
    absolute value used to compare durations. */
module Monitor {

  /** A callback invocation: the policy callback (`tooMuchErrFunc` for the
      error-rate monitor, `timeoutFunc` for the watchdog), or `closedFunc`. */
  datatype Call = Alarm | StreamClosed

  /** Absolute value of a duration, on unbounded integers. */
  function Abs(x: int): (r: nat)
    ensures r == x || r == -x
  {
    if x < 0 then -x else x
  }

  /** The number of times `c` occurs in `calls`. */
  function Count(calls: seq<Call>, c: Call): (k: nat)
    ensures k <= |calls|
    ensures k == 0 <==> c !in calls
  {
    if |calls| == 0 then 0
    else Count(calls[..|calls| - 1], c) + (if calls[|calls| - 1] == c then 1 else 0)
  }
}
