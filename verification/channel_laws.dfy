/** Laws relating the channel primitives to one another: FIFO round trips,
    the agreement of the non-blocking probe with a receive, and the behaviour
    of the guarded close when called twice. */
module ChannelLaws {
  import opened GoValues
  import opened Channel
  import opened Dispatch

  /** A send followed by a receive on an open channel is FIFO: the receive
      yields the oldest buffered item, or the item just sent when the channel
      was empty, in which case the channel is back where it started. */
  lemma SendThenReceive<T>(x: T, ch: Chan<T>, zero: T)
    requires !ch.closed
    ensures SendOrQuit(x, ch, false, DataFirst) == Returns(Sent(true, Chan(ch.buf + [x], false)))
    ensures var got := ReceiveOrQuit(Chan(ch.buf + [x], false), false, DataFirst, zero);
      got.Returns? && got.value.ok
      && got.value.item == NonNil(if |ch.buf| > 0 then ch.buf[0] else x)
      && (|ch.buf| == 0 ==> got.value.ch == ch)
  {
  }

  /** When a receive would not wait, the non-blocking probe sees the same
      thing: the same item and channel after, or the same closed verdict. */
  lemma ProbeAgreesWithReceive<T>(ch: Chan<T>, zero: T)
    requires ch != Chan([], false)
    ensures var got := ReceiveOrQuit(ch, false, DataFirst, zero);
      got.Returns?
      && (IsClosed(ch).item.NonNil? <==> got.value.ok)
      && (got.value.ok ==> IsClosed(ch).item == got.value.item && IsClosed(ch).ch == got.value.ch)
      && (IsClosed(ch).closed <==> !got.value.ok)
  {
  }

  /** When every race goes to the data case and quit never fires, every
      one of the sends is accepted. */
  lemma AllAccepted(race: nat -> Race, k: nat, len: nat)
    requires forall j :: race(j) == DataFirst
    ensures Accepted(false, race, k, len) == len
  {
  }

  /** The scheduler that always lets the data case win. */
  function AlwaysData(j: nat): Race { DataFirst }

  /** Results sent on a fresh channel with no cancellation, followed by a
      close and a drain, come out complete and in order. */
  lemma PipelineRoundTrip<T, E>(items: seq<T>, errs: Chan<E>)
    ensures var sent := SendResults(items, Nil, Chan([], false), errs, false, AlwaysData);
      sent == Returns(Dispatched(true, Chan(items, false), errs))
      && WaitClosed(CloseOnce(sent.value.results)) == Returns(Drained(items, Chan([], true)))
  {
    AllAccepted(AlwaysData, 0, |items|);
    var sent := SendResults(items, Nil, Chan([], false), errs, false, AlwaysData);
    assert sent.Returns?;
    assert [] + items[..|items|] == items;
  }

  /** Dispatching a single result with `SendResults` is `SendResult`: the
      same channel is attempted, the same item is delivered or not, and the
      same panic is raised. */
  lemma OneResultIsSendResult<T, E>(x: T, err: Nilable<E>, results: Chan<T>, errs: Chan<E>,
                                    quit: bool, race: nat -> Race)
    ensures SendResults([x], err, results, errs, quit, race) == SendResult(x, err, results, errs, quit, race(0))
  {
    if err.Nil? {
      var first := SendOrQuit(x, results, quit, race(0));
      if first.Returns? && first.value.ok {
        assert [x][1..] == [];
        assert SendEach([x][1..], first.value.ch, quit, race, 1) == Returns(Sent(true, first.value.ch));
      }
      assert SendEach([x], results, quit, race, 0)
          == if first.Returns? && first.value.ok then Returns(Sent(true, first.value.ch)) else first;
    }
  }

  /** On an empty channel with no other party, the guarded close can be
      called twice: both calls return and the second changes nothing. */
  lemma SafeCloseTwiceWhenEmpty<T>(ch: Chan<T>)
    requires ch.buf == []
    ensures SafeClose(ch) == Returns(Chan([], true))
    ensures SafeClose(SafeClose(ch).value) == SafeClose(ch)
  {
  }

  /** As written, a second guarded close of an open channel that buffers two
      or more items panics: the first call consumed one item and closed the
      channel, and the second call's probe still receives an item. */
  lemma SafeCloseTwicePanics<T>(ch: Chan<T>)
    requires !ch.closed && |ch.buf| >= 2
    ensures SafeClose(ch).Returns?
    ensures SafeClose(SafeClose(ch).value).Panics?
  {
  }

  /** As written, the guarded close of an open channel holding items loses
      the oldest one: a drain after it misses that item. */
  lemma SafeCloseLosesHead<T>(ch: Chan<T>)
    requires !ch.closed && |ch.buf| > 0
    ensures SafeClose(ch).Returns?
    ensures WaitClosed(SafeClose(ch).value) == Returns(Drained(ch.buf[1..], Chan([], true)))
    ensures |ch.buf[1..]| < |ch.buf|
  {
  }

  /** The intended close never panics, is idempotent, and keeps every
      buffered item for the drain that follows it. */
  lemma CloseOnceIsIdempotent<T>(ch: Chan<T>)
    ensures CloseOnce(CloseOnce(ch)) == CloseOnce(ch)
    ensures WaitClosed(CloseOnce(ch)) == Returns(Drained(ch.buf, Chan([], true)))
  {
  }
}
