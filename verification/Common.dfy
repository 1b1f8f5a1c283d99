/** Shared vocabulary of the service layer: optional values, command results, and time. */
module Common {

  datatype Option<+T> = None | Some(value: T)

  /** The error kinds of the domain layer that the modelled commands return; messages are dropped. */
  datatype Error = Unauthorized | Forbidden | NotFound | InvalidInput | Conflict

  datatype Result<+T> = Ok(value: T) | Err(error: Error)

  /** Why a command was refused, if it was. */
  function Refusal<T>(r: Result<T>): Option<Error> { if r.Err? then Some(r.error) else None }

  // Instants are nanoseconds since the epoch, as the application clock reads them.
  const SECOND: nat := 1_000_000_000
  const MINUTE: nat := 60 * SECOND
  const HOUR: nat := 60 * MINUTE
  const DAY: nat := 24 * HOUR
  const YEAR: nat := 365 * DAY

  lemma {:induction false} Durations()
    ensures SECOND == 1_000_000_000 && MINUTE == 60 * SECOND && HOUR == 3600 * SECOND && DAY == 86_400 * SECOND
    ensures YEAR == 31_536_000 * SECOND
  {
  }

  /** A count cast to a 32-bit signed integer. */
  function AsI32(n: nat): (r: int)
    ensures -0x8000_0000 <= r < 0x8000_0000 && (n < 0x8000_0000 ==> r == n)
  {
    var low := n % 0x1_0000_0000;
    if low < 0x8000_0000 then low else low - 0x1_0000_0000
  }

  /** What the database keeps of an instant: a TIMESTAMPTZ column holds whole microseconds. */
  function Micros(t: nat): (m: nat)
    ensures m <= t < m + 1000
  {
    t - t % 1000
  }

  lemma {:induction false} MicrosWhole(t: nat)
    ensures Micros(t) % 1000 == 0 && Micros(t) <= t < Micros(t) + 1000
  {
  }

  lemma MicrosMonotone(a: nat, b: nat)
    requires a <= b
    ensures Micros(a) <= Micros(b)
  {
  }

  /** Truncation commutes with adding whole microseconds, in particular with adding days. */
  lemma MicrosPlus(t: nat, k: nat)
    ensures Micros(t + 1000 * k) == Micros(t) + 1000 * k
  {
  }

  lemma MicrosPlusYear(t: nat)
    ensures Micros(t + YEAR) == Micros(t) + YEAR
  {
    MicrosPlus(t, YEAR / 1000);
  }

  lemma MicrosIdempotent(t: nat)
    ensures Micros(Micros(t)) == Micros(t)
  {
  }
}
