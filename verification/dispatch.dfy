/** Routing of a computed value or an upstream error to the matching output
    channel, built on `SendOrQuit`. An error is `Nilable<E>`: Nil stands for a
    nil error. */
module Dispatch {
  import opened GoValues
  import opened Channel

  /** Outcome of a dispatch: the delivered flag and both output channels after. */
  datatype Dispatched<T, E> = Dispatched(ok: bool, results: Chan<T>, errs: Chan<E>)

  /** How many of `len` consecutive sends, the j-th of them raced by
      `race(k + j)`, are accepted before the first one that observes quit. */
  function Accepted(quit: bool, race: nat -> Race, k: nat, len: nat): (n: nat)
    ensures n <= len
    ensures n > 0 ==> !quit
    ensures forall j :: k <= j < k + n ==> race(j) == DataFirst
    ensures n < len ==> quit || race(k + n) == QuitFirst
    decreases len
  {
    if len == 0 || quit || race(k) == QuitFirst then 0
    else
      var m := Accepted(quit, race, k + 1, len - 1);
      assert forall j :: k <= j < k + (1 + m) ==> race(j) == DataFirst by {
        forall j | k <= j < k + (1 + m)
          ensures race(j) == DataFirst
        {
          if j > k {
            assert k + 1 <= j < (k + 1) + m;
          }
        }
      }
      assert race(k + (1 + m)) == race((k + 1) + m);
      1 + m
  }

  /** The loop of `SendResults`: sends the items in order, the j-th raced by
      `race(k + j)`, and stops at the first one that is not delivered. */
  function SendEach<T>(items: seq<T>, ch: Chan<T>, quit: bool, race: nat -> Race, k: nat): (r: Run<Sent<T>>)
    ensures !r.BlocksForever?
    ensures r.Panics? <==> ch.closed && Accepted(quit, race, k, |items|) > 0
    ensures r.Returns? ==>
      var n := Accepted(quit, race, k, |items|);
      r.value.ch == Chan(ch.buf + items[..n], ch.closed) && (r.value.ok <==> n == |items|)
    decreases |items|
  {
    if |items| == 0 then Returns(Sent(true, ch))
    else
      var first := SendOrQuit(items[0], ch, quit, race(k));
      if !first.Returns? then first
      else if !first.value.ok then
        assert ch.buf + items[..0] == ch.buf;
        first
      else
        var m := Accepted(quit, race, k + 1, |items| - 1);
        PrefixStep(ch.buf, items, m);
        SendEach(items[1..], first.value.ch, quit, race, k + 1)
  }

  /** After the first item is sent, the accepted rest extends the channel
      to the accepted prefix of all the items. */
  lemma PrefixStep<T>(buf: seq<T>, items: seq<T>, m: nat)
    requires m < |items|
    ensures buf + [items[0]] + items[1..][..m] == buf + items[..1 + m]
  {
    assert items[..1 + m] == [items[0]] + items[1..][..m];
  }

  /** A non-nil error goes to `errs` and the result is dropped; otherwise the
      result goes to `results`. Exactly one channel is attempted; the other
      is returned untouched. */
  function SendResult<T, E>(result: T, err: Nilable<E>, results: Chan<T>, errs: Chan<E>,
                            quit: bool, race: Race): (r: Run<Dispatched<T, E>>)
    ensures !r.BlocksForever?
    ensures quit ==> r == Returns(Dispatched(false, results, errs))
    ensures err.NonNil? && r.Returns? ==>
      r.value.results == results
      && r.value.errs == (if r.value.ok then Chan(errs.buf + [err.value], errs.closed) else errs)
    ensures err.Nil? && r.Returns? ==>
      r.value.errs == errs
      && r.value.results == (if r.value.ok then Chan(results.buf + [result], results.closed) else results)
    ensures r.Returns? ==> (r.value.ok <==> !quit && race == DataFirst)
    ensures r.Panics? <==> !quit && race == DataFirst && (if err.NonNil? then errs.closed else results.closed)
  {
    match err
    case NonNil(e) =>
      (match SendOrQuit(e, errs, quit, race)
       case Returns(s) => Returns(Dispatched(s.ok, results, s.ch))
       case BlocksForever => BlocksForever
       case Panics(m) => Panics(m))
    case Nil =>
      (match SendOrQuit(result, results, quit, race)
       case Returns(s) => Returns(Dispatched(s.ok, s.ch, errs))
       case BlocksForever => BlocksForever
       case Panics(m) => Panics(m))
  }

  /** A non-nil error is dispatched alone and the results are discarded;
      otherwise the results are sent in order, the k-th raced by `race(k)`,
      stopping at the first that is not delivered. `results` then gains a
      prefix of them, and the call reports true exactly when all went out. */
  function SendResults<T, E>(items: seq<T>, err: Nilable<E>, results: Chan<T>, errs: Chan<E>,
                             quit: bool, race: nat -> Race): (r: Run<Dispatched<T, E>>)
    ensures !r.BlocksForever?
    ensures err.NonNil? && r.Returns? ==>
      r.value.results == results
      && r.value.errs == (if r.value.ok then Chan(errs.buf + [err.value], errs.closed) else errs)
      && (r.value.ok <==> !quit && race(0) == DataFirst)
    ensures err.Nil? && r.Returns? ==>
      var n := Accepted(quit, race, 0, |items|);
      r.value.errs == errs
      && r.value.results == Chan(results.buf + items[..n], results.closed)
      && (r.value.ok <==> n == |items|)
    ensures err.Nil? ==> (r.Panics? <==> results.closed && Accepted(quit, race, 0, |items|) > 0)
    ensures err.NonNil? ==> (r.Panics? <==> !quit && race(0) == DataFirst && errs.closed)
  {
    match err
    case NonNil(e) =>
      (match SendOrQuit(e, errs, quit, race(0))
       case Returns(s) => Returns(Dispatched(s.ok, results, s.ch))
       case BlocksForever => BlocksForever
       case Panics(m) => Panics(m))
    case Nil =>
      (match SendEach(items, results, quit, race, 0)
       case Returns(s) => Returns(Dispatched(s.ok, s.ch, errs))
       case BlocksForever => BlocksForever
       case Panics(m) => Panics(m))
  }
}
