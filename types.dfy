/** The records the monitor passes between its parts (internal/types/models.go),
    and the Option and Result wrappers used for Go's `nil` and `error` returns. */
module Types {
  import opened Text

  datatype Option<T> = None | Some(value: T)

  /** A Go `(value, error)` pair: the value when the error is nil, else the error's text. */
  datatype Result<T> = Ok(value: T) | Err(error: Bytes)

  /** The outcome of the next call to an external system, taken from a
      sequence of outcomes: Some(msg) makes the call fail with `msg`; once
      the sequence is used up every call succeeds. */
  function Fault(outcomes: seq<Option<Bytes>>): Option<Bytes>
  {
    if outcomes == [] then None else outcomes[0]
  }

  /** The outcomes left for the calls after the next one. */
  function Rest(outcomes: seq<Option<Bytes>>): seq<Option<Bytes>>
  {
    if outcomes == [] then [] else outcomes[1..]
  }

  /** What a call to an external system returns, with that system's state after it. */
  datatype Answer<T, S> = Answer(value: T, state: S)

  /** A service unit as the dashboard lists it. */
  datatype Service = Service(
    name: Bytes,
    description: Bytes,
    activeState: Bytes,
    subState: Bytes,
    loadState: Bytes,
    unitFileState: Bytes)

  /** One journal line: `timestamp` is nanoseconds since the Unix epoch and
      `priority` one of "error", "warn", "info". */
  datatype LogEntry = LogEntry(timestamp: int, message: Bytes, priority: Bytes)

  /** A process and the processes placed under it. */
  datatype Process = Process(pid: int, name: Bytes, cmdline: Bytes, parent: int, children: seq<Process>)
}
