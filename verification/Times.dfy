/** Times, in milliseconds, and the whole-second stamps that documents carry. */
module Times {

  const SECOND: int := 1000
  const HOUR: int := 3600 * SECOND
  const DAY: int := 24 * HOUR

  /** `strftime` keeps whole seconds. */
  function Stamp(now: int): int {
    now / SECOND * SECOND
  }

  /** A stamp is the last whole second, of 1000 milliseconds, up to a time. */
  lemma StampMeans(now: int)
    ensures Stamp(now) % 1000 == 0 && Stamp(now) <= now < Stamp(now) + 1000
  {
  }
}
