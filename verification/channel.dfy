/** Quit-aware channel primitives over an immutable snapshot of a Go channel.
    A blocking `select` between a data case and the quit case is resolved by a
    scheduler oracle (`Race`); the quit signal is "already signalled" or not. */
module Channel {
  import opened GoValues

  /** A channel at one instant: items sent and not yet received, oldest first,
      and whether `close` has been called on it. */
  datatype Chan<T> = Chan(buf: seq<T>, closed: bool)

  /** The case a blocking two-way select takes once the priority check on quit
      has passed: the data case, or quit firing while waiting. */
  datatype Race = DataFirst | QuitFirst

  /** Result of a send: whether the item was delivered, and the channel after. */
  datatype Sent<T> = Sent(ok: bool, ch: Chan<T>)

  /** Result of `ReceiveOrQuit`: the returned pointer (Nil = nil), the ok flag,
      and the channel after. */
  datatype Received<T> = Received(item: Nilable<T>, ok: bool, ch: Chan<T>)

  /** Result of `IsClosed`: the closed flag, the returned pointer, the channel after. */
  datatype Peeked<T> = Peeked(closed: bool, item: Nilable<T>, ch: Chan<T>)

  /** Result of `WaitClosed`: the collected items and the channel after. */
  datatype Drained<T> = Drained(items: seq<T>, ch: Chan<T>)

  /** Sends `data` unless quit wins. A pending quit is checked first and beats
      a ready channel; the send itself either appends exactly `data` or
      changes nothing. A send that reaches a closed channel panics. */
  function SendOrQuit<T>(data: T, ch: Chan<T>, quit: bool, race: Race): (r: Run<Sent<T>>)
    ensures quit ==> r == Returns(Sent(false, ch))
    ensures !r.BlocksForever?
    ensures r.Panics? <==> !quit && race == DataFirst && ch.closed
    ensures r.Returns? && r.value.ok ==> !ch.closed && r.value.ch == Chan(ch.buf + [data], false)
    ensures r.Returns? && !r.value.ok ==> r.value.ch == ch
    ensures r.Returns? ==> (r.value.ok <==> !quit && race == DataFirst)
  {
    if quit then Returns(Sent(false, ch))
    else match race
      case QuitFirst => Returns(Sent(false, ch))
      case DataFirst =>
        if ch.closed then Panics("send on closed channel")
        else Returns(Sent(true, Chan(ch.buf + [data], ch.closed)))
  }

  /** Receives one item unless quit wins. A pending quit gives (nil, false) and
      leaves the channel alone; a closed, drained channel gives a pointer to the
      zero value with false; otherwise the head item with true. With no item
      and no close the receive waits forever (nothing else sends in the model). */
  function ReceiveOrQuit<T>(ch: Chan<T>, quit: bool, race: Race, zero: T): (r: Run<Received<T>>)
    ensures quit ==> r == Returns(Received(Nil, false, ch))
    ensures !r.Panics?
    ensures r.BlocksForever? <==> !quit && race == DataFirst && ch == Chan([], false)
    ensures r.Returns? && r.value.ok ==>
      |ch.buf| > 0 && r.value.item == NonNil(ch.buf[0])
      && ch.buf == [ch.buf[0]] + r.value.ch.buf && r.value.ch.closed == ch.closed
    ensures r.Returns? && !r.value.ok ==> r.value.ch == ch
    ensures r.Returns? && !r.value.ok && r.value.item.NonNil? ==>
      r.value.item.value == zero && ch.closed && |ch.buf| == 0
    ensures r.Returns? && r.value.item.Nil? ==> quit || race == QuitFirst
    ensures race == QuitFirst ==> r == Returns(Received(Nil, false, ch))
    ensures r.Returns? ==> (r.value.ok <==> !quit && race == DataFirst && |ch.buf| > 0)
  {
    if quit then Returns(Received(Nil, false, ch))
    else match race
      case QuitFirst => Returns(Received(Nil, false, ch))
      case DataFirst =>
        if |ch.buf| > 0 then Returns(Received(NonNil(ch.buf[0]), true, Chan(ch.buf[1..], ch.closed)))
        else if ch.closed then Returns(Received(NonNil(zero), false, ch))
        else BlocksForever
  }

  /** Non-blocking probe: a buffered item is consumed and returned with
      closed = false; a closed, drained channel reports closed; an open, empty
      channel reports neither and is left alone. */
  function IsClosed<T>(ch: Chan<T>): (r: Peeked<T>)
    ensures r.item.NonNil? <==> |ch.buf| > 0
    ensures r.closed <==> ch.closed && |ch.buf| == 0
    ensures r.item.NonNil? ==> ch.buf == [r.item.value] + r.ch.buf && r.ch.closed == ch.closed
    ensures r.item.Nil? ==> r.ch == ch
  {
    if |ch.buf| > 0 then Peeked(false, NonNil(ch.buf[0]), Chan(ch.buf[1..], ch.closed))
    else if ch.closed then Peeked(true, Nil, ch)
    else Peeked(false, Nil, ch)
  }

  /** Close guarded by a non-blocking receive: a receive that yields an item
      (ok = true) or finds nothing ready leads to `close`; a receive that reports
      the channel closed skips it. The probing receive consumes the head item,
      and a closed channel that still buffers items is closed a second time. */
  function SafeClose<T>(ch: Chan<T>): (r: Run<Chan<T>>)
    ensures !r.BlocksForever?
    ensures r.Panics? <==> ch.closed && |ch.buf| > 0
    ensures r.Returns? ==> r.value.closed
    ensures r.Returns? && |ch.buf| > 0 ==> r.value.buf == ch.buf[1..]
    ensures r.Returns? && |ch.buf| == 0 ==> r.value.buf == []
  {
    if |ch.buf| > 0 then
      if ch.closed then Panics("close of closed channel") else Returns(Chan(ch.buf[1..], true))
    else if ch.closed then Returns(ch)
    else Returns(Chan([], true))
  }

  /** The idempotent close the guard above is meant to be: close when open,
      do nothing when closed, never touch the buffered items. */
  function CloseOnce<T>(ch: Chan<T>): (r: Chan<T>)
    ensures r.closed && r.buf == ch.buf
    ensures ch.closed ==> r == ch
  {
    Chan(ch.buf, true)
  }

  /** Receives until the channel reports closed and returns everything seen,
      oldest first. On a channel that is never closed the receive after the
      last item waits forever. */
  function WaitClosed<T>(ch: Chan<T>): (r: Run<Drained<T>>)
    ensures !r.Panics?
    ensures r.Returns? <==> ch.closed
    ensures r.Returns? ==> r.value == Drained(ch.buf, Chan([], true))
    decreases |ch.buf|
  {
    if |ch.buf| > 0 then
      match WaitClosed(Chan(ch.buf[1..], ch.closed))
      case Returns(d) => Returns(Drained([ch.buf[0]] + d.items, d.ch))
      case BlocksForever => BlocksForever
      case Panics(m) => Panics(m)
    else if ch.closed then Returns(Drained([], ch))
    else BlocksForever
  }
}
