/** Vocabulary shared by the models: optional values, results and the clock. */
module Common {

  // Milliseconds since the epoch: the resolution of the stores the service writes to.
  type Time = nat

  const SECOND: nat := 1000
  const HOUR: nat := 3600 * SECOND
  const DAY: nat := 24 * HOUR

  datatype Option<+T> = None | Some(value: T)

  datatype Error =
    | BadRequest
    | InvalidCred
    | Forbidden
    | NotFound
    | Conflict
    | RateLimited
    | PendingApproval
    | Internal

  datatype Result<+T> = Ok(value: T) | Err(error: Error)

  function Lookup<K, V>(m: map<K, V>, k: K): (r: Option<V>)
  {
    if k in m then Some(m[k]) else None
  }

  function Min(a: int, b: int): int
  {
    if a < b then a else b
  }

  function Max(a: int, b: int): int
  {
    if a < b then b else a
  }
}
