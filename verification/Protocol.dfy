// The vocabulary shared by the coordinator, the workers and the wire codec.
module Protocol {

  datatype Option<+T> = None | Some(value: T)

  type Path = string
  type WorkerId = string

  // The two failure codes a worker reports in place of an event count.
  const UNREADABLE: int := -1   // nothing was persisted: deterministic, not retried
  const PARTIAL: int := -2      // rows were already persisted: retryable

  const MAX_EVENTS: int := 1_000_000_000_000

  // A lifecycle frame as the coordinator sees it after decoding.
  datatype Frame =
    | Result(path: Path, events: int, worker: WorkerId)
    | Claim(path: Path, worker: WorkerId)
    | Bye(worker: WorkerId)
    | Malformed
}
