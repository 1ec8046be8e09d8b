/** The six numeric instance state codes of EC2 and the filters built on them. */
module States {

  import opened Wrappers

  const Pending: int := 0
  const Running: int := 16
  const ShuttingDown: int := 32
  const Terminated: int := 48
  const Stopping: int := 64
  const Stopped: int := 80

  /** The codes of the `STATES` table. */
  const Known: set<int> := {Pending, Running, ShuttingDown, Terminated, Stopping, Stopped}

  /** Healthy: neither terminated nor on the way there. */
  predicate Healthy(code: int) {
    code != Terminated && code != ShuttingDown
  }

  /** A state that the mock provider's `update` never moves out of by itself. */
  predicate Stable(code: int) {
    code != Pending && code != Stopping && code != ShuttingDown
  }

  /** The state name that goes with a code (the inverse of the `STATES` table). */
  function Name(code: int): (name: string)
    requires code in Known
    ensures |name| > 0
  {
    if code == Pending then "pending"
    else if code == Running then "running"
    else if code == ShuttingDown then "shutting-down"
    else if code == Terminated then "terminated"
    else if code == Stopping then "stopping"
    else "stopped"
  }

  /** Looking a state name up in the `STATES` table. */
  function Code(name: string): (r: Option<int>)
    ensures r.Some? ==> r.value in Known && Name(r.value) == name
  {
    if name == "pending" then Some(Pending)
    else if name == "running" then Some(Running)
    else if name == "shutting-down" then Some(ShuttingDown)
    else if name == "terminated" then Some(Terminated)
    else if name == "stopping" then Some(Stopping)
    else if name == "stopped" then Some(Stopped)
    else None
  }

  /** Every known code has a name that looks it back up. */
  lemma NameCodeRoundTrip(code: int)
    requires code in Known
    ensures Code(Name(code)) == Some(code)
  {
  }
}
