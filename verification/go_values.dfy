/** Nil-able values and the ways a Go call can end, shared by the channel
    and logging models. */
module GoValues {

  /** A Go value that can be nil (a pointer, slice, map or error): `Nil` stands for nil. */
  datatype Nilable<+T> = Nil | NonNil(value: T)

  /** How a Go call ends when the runtime can stop it: it returns a value,
      it waits forever on a channel nobody will touch again, or it panics
      (send on a closed channel, close of a closed channel, index out of range). */
  datatype Run<+R> = Returns(value: R) | BlocksForever | Panics(reason: string)
}
