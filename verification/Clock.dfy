/** Clock readings shared by the lock-protected machines. */
module Clock {
  /** One call of an injected clock: it fails, or returns a number of milliseconds. */
  datatype Reading = Fault | At(now: int)
}
