/** What the watchdog promises over whole traces: the initial wait governs
    only until the first item, the timeouts are exactly those due in each
    gap, one happens exactly when some gap outlasts the wait in force,
    timeouts recur, and a close ends the loop. */
module WatchdogLaws {
  import opened Monitor
  import opened Watchdog

  lemma AlarmsConcat(a: nat, b: nat)
    ensures Alarms(a) + Alarms(b) == Alarms(a + b)
  {
  }

  /** Unfolding the watchdog by one signal at the end. */
  lemma TimeoutSnoc(initDuration: int, duration: int, storm: nat -> nat, events: seq<Signal>, e: Signal)
    ensures Timeout(initDuration, duration, storm, events + [e])
         == Step(duration, storm(|events|), Timeout(initDuration, duration, storm, events), e)
  {
    assert (events + [e])[..|events|] == events;
  }

  /** An arrival trace grows by one arrival at a time. */
  lemma ArrivalsSnoc(ts: seq<int>)
    requires |ts| > 0
    ensures Arrivals(ts) == Arrivals(ts[..|ts| - 1]) + [Arrive(ts[|ts| - 1])]
  {
  }

  /** Over items arriving at `ts` the loop keeps watching: with the initial
      wait armed at the call until the first item, then with the steady wait
      re-armed at the latest item. */
  lemma {:induction false} ArrivalsState(initDuration: int, duration: int, storm: nat -> nat, ts: seq<int>)
    ensures Timeout(initDuration, duration, storm, Arrivals(ts)).state
         == if |ts| == 0 then Watching(initDuration, 0) else Watching(duration, ts[|ts| - 1])
    ensures Timeout(initDuration, duration, storm, Arrivals(ts)).state
         == Watching(WaitFor(initDuration, duration, |ts|), ArmedFor(ts, |ts|))
  {
    if |ts| > 0 {
      var i := |ts| - 1;
      ArrivalsSnoc(ts);
      TimeoutSnoc(initDuration, duration, storm, Arrivals(ts[..i]), Arrive(ts[i]));
      ArrivalsState(initDuration, duration, storm, ts[..i]);
    }
  }

  /** Over items arriving at `ts`, the wait is the initial one until the
      first item and the steady one after it, re-armed at the latest item,
      and the callbacks are exactly the timeouts the reference count
      predicts, gap by gap. */
  lemma {:induction false} ArrivalsInvariant(initDuration: int, duration: int, storm: nat -> nat, ts: seq<int>)
    ensures Timeout(initDuration, duration, storm, Arrivals(ts)).state
         == if |ts| == 0 then Watching(initDuration, 0) else Watching(duration, ts[|ts| - 1])
    ensures Timeout(initDuration, duration, storm, Arrivals(ts)).state
         == Watching(WaitFor(initDuration, duration, |ts|), ArmedFor(ts, |ts|))
    ensures Timeout(initDuration, duration, storm, Arrivals(ts)).calls
         == Alarms(DueAlarms(initDuration, duration, storm, ts))
    decreases |ts|
  {
    ArrivalsState(initDuration, duration, storm, ts);
    if |ts| > 0 {
      var i := |ts| - 1;
      var ps := ts[..i];
      ArrivalsInvariant(initDuration, duration, storm, ps);
      var before := Timeout(initDuration, duration, storm, Arrivals(ps));
      var sum := DueAlarms(initDuration, duration, storm, ps);
      var term := Due(ArmedFor(ts, i), WaitFor(initDuration, duration, i), ts[i], storm(i));
      assert ArmedFor(ps, i) == ArmedFor(ts, i);
      assert before == Trace(Alarms(sum), Watching(WaitFor(initDuration, duration, i), ArmedFor(ts, i)));
      ArrivalsSnoc(ts);
      TimeoutSnoc(initDuration, duration, storm, Arrivals(ps), Arrive(ts[i]));
      assert Timeout(initDuration, duration, storm, Arrivals(ts)).calls == Alarms(sum) + Alarms(term);
      AlarmsConcat(sum, term);
    }
  }

  /** With positive waits the reference count is positive exactly when some
      item arrived late. */
  lemma {:induction false} DuePositiveIffLate(initDuration: int, duration: int, storm: nat -> nat, ts: seq<int>)
    requires initDuration > 0 && duration > 0
    ensures DueAlarms(initDuration, duration, storm, ts) > 0
        <==> exists i :: 0 <= i < |ts| && Late(initDuration, duration, ts, i)
    decreases |ts|
  {
    if |ts| > 0 {
      var last := |ts| - 1;
      var ps := ts[..last];
      DuePositiveIffLate(initDuration, duration, storm, ps);
      forall i | 0 <= i < |ps|
        ensures Late(initDuration, duration, ps, i) == Late(initDuration, duration, ts, i)
      {
        assert ps[i] == ts[i];
        if i > 0 { assert ps[i - 1] == ts[i - 1]; }
      }
      var term := Due(ArmedFor(ts, last), WaitFor(initDuration, duration, last), ts[last], storm(last));
      assert term > 0 <==> Late(initDuration, duration, ts, last);
    }
  }

  /** With positive waits, a timeout callback occurs exactly when some item
      arrived late. */
  lemma AlarmIffLate(initDuration: int, duration: int, storm: nat -> nat, ts: seq<int>)
    requires initDuration > 0 && duration > 0
    ensures Alarm in Timeout(initDuration, duration, storm, Arrivals(ts)).calls
        <==> exists i :: 0 <= i < |ts| && Late(initDuration, duration, ts, i)
  {
    ArrivalsInvariant(initDuration, duration, storm, ts);
    DuePositiveIffLate(initDuration, duration, storm, ts);
    if DueAlarms(initDuration, duration, storm, ts) > 0 {
      assert Alarms(DueAlarms(initDuration, duration, storm, ts))[0] == Alarm;
    }
  }

  /** After the loop has returned, later signals change nothing. */
  lemma {:induction false} StopsForGood(initDuration: int, duration: int, storm: nat -> nat,
                                        events: seq<Signal>, more: seq<Signal>)
    requires Timeout(initDuration, duration, storm, events).state.Stopped?
    ensures Timeout(initDuration, duration, storm, events + more) == Timeout(initDuration, duration, storm, events)
    decreases |more|
  {
    if |more| == 0 {
      assert events + more == events;
    } else {
      var init := more[..|more| - 1];
      assert (events + more)[..|events + more| - 1] == events + init;
      StopsForGood(initDuration, duration, storm, events, init);
    }
  }

  /** A close at time `t` delivers the timeouts due before it, then calls
      `closedFunc` once, last; nothing after the close is seen. This holds
      for any waits, non-positive ones included. */
  lemma ClosedEndsRun(initDuration: int, duration: int, storm: nat -> nat, ts: seq<int>, t: int, rest: seq<Signal>)
    ensures Timeout(initDuration, duration, storm, Arrivals(ts) + [Close(t)] + rest)
         == Trace(Alarms(DueAlarms(initDuration, duration, storm, ts))
                  + Alarms(Due(ArmedFor(ts, |ts|), WaitFor(initDuration, duration, |ts|), t, storm(|ts|)))
                  + [StreamClosed], Stopped)
  {
    ArrivalsInvariant(initDuration, duration, storm, ts);
    TimeoutSnoc(initDuration, duration, storm, Arrivals(ts), Close(t));
    StopsForGood(initDuration, duration, storm, Arrivals(ts) + [Close(t)], rest);
  }

  /** A timeout re-arms with the same wait, so a silence longer than `m`
      waits brings at least `m` timeout callbacks. */
  lemma Recurs(armedAt: int, wait: int, t: int, m: nat)
    requires wait > 0
    requires t - armedAt > m * wait
    ensures Fired(armedAt, wait, t) >= m
  {
  }

  /** Initial wait 1 s, steady wait 0.5 s (in milliseconds): an item at
      0 s and the next at 1.6 s bring three timeouts, at 0.5, 1.0 and 1.5 s. */
  lemma RepeatScenario(storm: nat -> nat)
    ensures Timeout(1000, 500, storm, Arrivals([0, 1600])).calls == [Alarm, Alarm, Alarm]
  {
    ArrivalsInvariant(1000, 500, storm, [0, 1600]);
    assert [0, 1600][..1] == [0];
    assert [0][..0] == [];
    assert Fired(0, 500, 1600) == 3;
  }

  /** With a zero initial wait the timer is expired at once, yet the item
      and the close are still received: after the scheduler's timeouts the
      item at 0.1 s re-arms with 0.5 s, one timeout is due at 0.6 s, and the
      close at 1 s calls `closedFunc`. */
  lemma ZeroWaitStillReceives(storm: nat -> nat)
    ensures Timeout(0, 500, storm, [Arrive(100), Close(1000)])
         == Trace(Alarms(storm(0)) + [Alarm, StreamClosed], Stopped)
  {
    ClosedEndsRun(0, 500, storm, [100], 1000, []);
    assert Arrivals([100]) + [Close(1000)] + [] == [Arrive(100), Close(1000)];
    assert [100][..0] == [];
    assert Fired(100, 500, 1000) == 1;
    AlarmsConcat(0, storm(0));
  }

  /** Initial wait 1 s, steady wait 0.5 s: silence until 1.2 s alarms, an
      item at 0.8 s does not; after an item at once, a gap of 0.6 s alarms
      and a gap of 0.4 s does not. */
  lemma GraceScenarios(storm: nat -> nat)
    ensures Alarm in Timeout(1000, 500, storm, Arrivals([1200])).calls
    ensures Alarm !in Timeout(1000, 500, storm, Arrivals([800])).calls
    ensures Alarm in Timeout(1000, 500, storm, Arrivals([0, 600])).calls
    ensures Alarm !in Timeout(1000, 500, storm, Arrivals([0, 400])).calls
  {
    AlarmIffLate(1000, 500, storm, [1200]);
    assert Late(1000, 500, [1200], 0);
    AlarmIffLate(1000, 500, storm, [800]);
    AlarmIffLate(1000, 500, storm, [0, 600]);
    assert Late(1000, 500, [0, 600], 1);
    AlarmIffLate(1000, 500, storm, [0, 400]);
    assert !Late(1000, 500, [0, 400], 0) && !Late(1000, 500, [0, 400], 1);
  }

  /** Items every 0.3 s, then every 0.4 s, stay silent; a following gap of
      1 s alarms. */
  lemma RateChangeScenario(storm: nat -> nat)
    ensures Alarm !in Timeout(1000, 500, storm, Arrivals([0, 300, 600, 900, 1300, 1700])).calls
    ensures Alarm in Timeout(1000, 500, storm, Arrivals([0, 300, 600, 900, 1300, 1700, 2700])).calls
  {
    var steady := [0, 300, 600, 900, 1300, 1700];
    AlarmIffLate(1000, 500, storm, steady);
    forall i | 0 <= i < |steady|
      ensures !Late(1000, 500, steady, i)
    {
    }
    var late := steady + [2700];
    assert late == [0, 300, 600, 900, 1300, 1700, 2700];
    AlarmIffLate(1000, 500, storm, late);
    assert Late(1000, 500, late, 6);
  }
}
