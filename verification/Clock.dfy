/** Points in time and durations: 64-bit counts of microseconds, of which the largest
    means never. */
module Clock {
  import opened Bytes
  import opened Record

  const FOREVER: nat := TWO_64 - 1
  const LAST: nat := FOREVER - 1
  const MILLION: nat := 1000000

  // The checked sum, which never overflows on the way.
  function Add(value: nat, amount: nat): (r: Option<nat>)
    ensures r == if value + amount <= LAST then Some(value + amount) else None
  {
    if value > LAST || amount > LAST - value then None else Some(value + amount)
  }
}
