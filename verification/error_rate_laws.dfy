/** What the error monitor promises over whole traces: the window keeps
    exactly `n` slots, its alarms are those of the reference rule, a close
    ends it, and the hard-coded `len - 10` makes the as-written monitor
    disagree with the intended one whenever `n` is not 10. */
module ErrorRateLaws {
  import opened Monitor
  import opened ErrorRate

  /** One error slides the seeded history's last `n` slots by one, and
      alarms exactly when the reference rule fires for it. */
  lemma SlideStep(n: nat, back: nat, limit: int, ps: seq<int>, t: int)
    requires back <= n
    ensures Observe(n, back, limit, (Seeds(n) + Stamps(ps))[|ps|..], t)
         == Trace(if Fires(ps + [t], |ps|, back, limit) then [Alarm] else [],
                  Running((Seeds(n) + Stamps(ps + [t]))[|ps| + 1..]))
  {
    var ts := ps + [t];
    var all := Seeds(n) + Stamps(ts);
    var w := (Seeds(n) + Stamps(ps))[|ps|..];
    assert |w| == n;
    assert w + [At(t)] == all[|ps|..];
    assert (w + [At(t)])[n - back] == all[|ps| + n - back];
    if |ps| >= back {
      assert all[|ps| + n - back] == At(ts[|ps| - back]);
    } else {
      assert all[|ps| + n - back] == Seed;
    }
    assert all[|ps|..][1..] == all[|ts|..];
  }

  /** Unfolding the monitor by one event at the end. */
  lemma RunSnoc(n: nat, back: nat, limit: int, events: seq<ErrEvent>, e: ErrEvent)
    ensures Run(n, back, limit, events + [e]) == Step(n, back, limit, Run(n, back, limit, events), e)
  {
    assert (events + [e])[..|events|] == events;
  }

  /** Between errors the window is always the last `n` slots of the seeded
      history, and the callbacks so far are exactly those the reference rule
      predicts. */
  lemma {:induction false} WindowInvariant(n: nat, back: nat, limit: int, ts: seq<int>)
    requires back <= n
    ensures Run(n, back, limit, Errs(ts))
         == Trace(Expected(ts, back, limit), Running((Seeds(n) + Stamps(ts))[|ts|..]))
    ensures |(Seeds(n) + Stamps(ts))[|ts|..]| == n
    decreases |ts|
  {
    if |ts| == 0 {
      assert Errs(ts) == [];
      assert (Seeds(n) + Stamps(ts))[0..] == Seeds(n);
    } else {
      var ps := ts[..|ts| - 1];
      var t := ts[|ts| - 1];
      assert ts == ps + [t];
      WindowInvariant(n, back, limit, ps);
      assert Errs(ts) == Errs(ps) + [Err(t)];
      RunSnoc(n, back, limit, Errs(ps), Err(t));
      SlideStep(n, back, limit, ps, t);
    }
  }

  /** After the loop has returned or crashed, later events change nothing. */
  lemma {:induction false} StopsForGood(n: nat, back: nat, limit: int, events: seq<ErrEvent>, more: seq<ErrEvent>)
    requires !Run(n, back, limit, events).state.Running?
    ensures Run(n, back, limit, events + more) == Run(n, back, limit, events)
    decreases |more|
  {
    if |more| == 0 {
      assert events + more == events;
    } else {
      var init := more[..|more| - 1];
      assert (events + more)[..|events + more| - 1] == events + init;
      StopsForGood(n, back, limit, events, init);
    }
  }

  /** Closing the error channel invokes `closedFunc` exactly once, as the
      last callback, and nothing that follows on the trace is seen. */
  lemma ClosedEndsRun(n: nat, back: nat, limit: int, ts: seq<int>, rest: seq<ErrEvent>)
    requires back <= n
    ensures Run(n, back, limit, Errs(ts) + [Closed] + rest)
         == Trace(Expected(ts, back, limit) + [StreamClosed], Terminated)
    ensures Count(Run(n, back, limit, Errs(ts) + [Closed] + rest).calls, StreamClosed) == 1
  {
    WindowInvariant(n, back, limit, ts);
    RunSnoc(n, back, limit, Errs(ts), Closed);
    StopsForGood(n, back, limit, Errs(ts) + [Closed], rest);
    var calls := Expected(ts, back, limit) + [StreamClosed];
    assert calls[..|calls| - 1] == Expected(ts, back, limit);
  }

  /** When the compared slot lies before the start of the window, the first
      error ends the loop with an index-out-of-range panic and no callback. */
  lemma CrashOnFirstError(n: nat, back: nat, limit: int, t: int, rest: seq<ErrEvent>)
    requires back > n
    ensures Run(n, back, limit, [Err(t)] + rest) == Trace([], Crashed)
  {
    assert ([Err(t)] + rest)[..1] == [Err(t)];
    assert [Err(t)][..0] == [];
    StopsForGood(n, back, limit, [Err(t)], rest);
  }

  /** The reference rule predicts an alarm exactly when some error fires. */
  lemma {:induction false} ExpectedAlarms(ts: seq<int>, back: nat, limit: int)
    ensures Alarm in Expected(ts, back, limit) <==> exists i :: 0 <= i < |ts| && Fires(ts, i, back, limit)
    decreases |ts|
  {
    if |ts| > 0 {
      var ps := ts[..|ts| - 1];
      ExpectedAlarms(ps, back, limit);
      forall i | 0 <= i < |ps|
        ensures Fires(ps, i, back, limit) == Fires(ts, i, back, limit)
      {
      }
    }
  }

  /** As written, with a window of at least nine zero-time seeds, the k-th
      error alarms exactly when k >= 10 and it was caught less than |limit|
      after the (k-9)-th, whatever the window size. */
  lemma AsWrittenAlarms(n: nat, limit: int, ts: seq<int>)
    requires n >= 9
    ensures TooMuchError(n, limit, Errs(ts)).calls == Expected(ts, 9, limit)
    ensures TooMuchError(n, limit, Errs(ts)).state.Running?
  {
    WindowInvariant(n, 9, limit, ts);
  }

  /** As written, a window smaller than nine panics on the first error. */
  lemma AsWrittenCrashesBelowNine(n: nat, limit: int, t: int, rest: seq<ErrEvent>)
    requires n < 9
    ensures TooMuchError(n, limit, [Err(t)] + rest) == Trace([], Crashed)
  {
    CrashOnFirstError(n, 9, limit, t, rest);
  }

  /** The intended monitor alarms on the k-th error exactly when the last `n`
      errors (k >= n) were all caught within |limit|: the span from the
      (k-n+1)-th to the k-th is shorter than |limit|. */
  lemma IntendedAlarms(n: nat, limit: int, ts: seq<int>)
    requires n >= 1
    ensures TooMuchErrorIntended(n, limit, Errs(ts)).calls == Expected(ts, n - 1, limit)
    ensures TooMuchErrorIntended(n, limit, Errs(ts)).state.Running?
  {
    assert TooMuchErrorIntended(n, limit, Errs(ts)) == Run(n, n - 1, limit, Errs(ts));
    WindowInvariant(n, n - 1, limit, ts);
  }

  /** On any trace the intended monitor never panics. */
  lemma {:induction false} IntendedNeverCrashes(n: nat, limit: int, events: seq<ErrEvent>)
    ensures !TooMuchErrorIntended(n, limit, events).state.Crashed?
    ensures TooMuchErrorIntended(n, limit, events).state.Running? ==>
      |TooMuchErrorIntended(n, limit, events).state.window| == n
    decreases |events|
  {
    if |events| > 0 {
      IntendedNeverCrashes(n, limit, events[..|events| - 1]);
    }
  }

  /** The two agree on a window of ten, the size the tests use. */
  lemma AgreeAtTen(limit: int, events: seq<ErrEvent>)
    ensures TooMuchError(10, limit, events) == TooMuchErrorIntended(10, limit, events)
  {
  }

  /** Ten errors in the same instant with a window of twenty: as written the
      tenth error alarms although the window asks for twenty, while the
      intended monitor stays silent. */
  lemma HardCodedTenDisagrees()
    ensures TooMuchError(20, 1000, Errs(seq(10, _ => 0))).calls == [Alarm]
    ensures TooMuchErrorIntended(20, 1000, Errs(seq(10, _ => 0))).calls == []
  {
    var ts: seq<int> := seq(10, _ => 0);
    AsWrittenAlarms(20, 1000, ts);
    IntendedAlarms(20, 1000, ts);
    NoneFire(ts[..9], 9, 1000);
    assert ts[..|ts| - 1] == ts[..9];
    NoneFire(ts, 19, 1000);
  }

  /** With no error firing, the reference rule predicts no callback. */
  lemma {:induction false} NoneFire(ts: seq<int>, back: nat, limit: int)
    requires forall i :: 0 <= i < |ts| ==> !Fires(ts, i, back, limit)
    ensures Expected(ts, back, limit) == []
    decreases |ts|
  {
    if |ts| > 0 {
      var ps := ts[..|ts| - 1];
      forall i | 0 <= i < |ps|
        ensures !Fires(ps, i, back, limit)
      {
        assert !Fires(ts, i, back, limit);
        assert ps[i] == ts[i];
        if i >= back { assert ps[i - back] == ts[i - back]; }
      }
      NoneFire(ps, back, limit);
    }
  }

  /** Window of ten, limit one second (in milliseconds): nine errors at once
      and a tenth 0.8 s later alarms; a tenth 1.1 s later does not. */
  lemma BurstScenarios()
    ensures TooMuchError(10, 1000, Errs(seq(9, _ => 0) + [800])).calls == [Alarm]
    ensures TooMuchError(10, 1000, Errs(seq(9, _ => 0) + [1100])).calls == []
  {
    var nine: seq<int> := seq(9, _ => 0);
    NoneFire(nine, 9, 1000);
    assert (nine + [800])[..9] == nine;
    assert (nine + [1100])[..9] == nine;
    AsWrittenAlarms(10, 1000, nine + [800]);
    AsWrittenAlarms(10, 1000, nine + [1100]);
  }

  /** Window of ten, limit one second: ten errors 130 ms apart stay silent,
      and ten more 100 ms apart bring an alarm. */
  lemma RateChangeScenario()
    ensures TooMuchError(10, 1000, Errs(seq(10, i => 130 * i))).calls == []
    ensures Alarm in TooMuchError(10, 1000, Errs(seq(10, i => 130 * i) + seq(10, i => 1300 + 100 * i))).calls
  {
    var slow: seq<int> := seq(10, i => 130 * i);
    var ts := slow + seq(10, i => 1300 + 100 * i);
    forall i | 0 <= i < |slow|
      ensures !Fires(slow, i, 9, 1000)
    {
      if i == 9 { assert slow[9] - slow[0] == 1170; }
    }
    NoneFire(slow, 9, 1000);
    AsWrittenAlarms(10, 1000, slow);
    assert ts[16] == 1900 && ts[7] == 910;
    assert Fires(ts, 16, 9, 1000);
    ExpectedAlarms(ts, 9, 1000);
    AsWrittenAlarms(10, 1000, ts);
  }
}
