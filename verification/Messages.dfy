/** What travels from an edge box to the cloud. Identifiers are naturals: only their equality is used. */
module Messages {
  import opened Sequences

  type DeviceId = nat
  type Time = real

  datatype Status = Healthy | Degraded | Unhealthy | Unknown

  /** Why a transition was sent: the device's own reading, or its absence from the platform's report. */
  datatype Cause = Reported | Absent(staleSeconds: int)

  datatype Message =
    | EdgeHealth(ts: Time, tracked: nat, unhealthy: nat, depth: nat)
    | Periodic(ts: Time, device: DeviceId, status: Status, score: int)
    | Transition(ts: Time, device: DeviceId, status: Status, score: int, cause: Cause)
  {
    predicate About(d: DeviceId) {
      !EdgeHealth? && device == d
    }
  }
}
