/**
 * The types the tokenizer shares with the rest of the syslog parser package:
 * priorities, the end-of-line sentinel, the parsed timestamp, the output record,
 * and the answer of the priority decoder (whose code is not part of this model).
 */
module Syslog {

  import opened Bytes

  datatype Option<T> = None | Some(value: T)

  datatype Facility = Facility(value: int)
  datatype Severity = Severity(value: int)

  /** A decoded `<N>` marker: the code and its facility and severity parts. */
  datatype Priority = Priority(p: int, f: Facility, s: Severity)

  /** Go's zero `Priority{}`. */
  const ZeroPriority: Priority := Priority(0, Facility(0), Severity(0))

  /** The priority assumed when a message carries no marker (section 4.3.3 of RFC 3164). */
  const DefaultPriority: Priority := Priority(13, Facility(1), Severity(5))

  /** Go's `error` as the tokenizer sees it: nil, or the end-of-line sentinel. */
  datatype Err = Nil | ErrEOL

  /**
   * A timestamp field: Go's zero `time.Time`, or the wall-clock reading taken
   * while parsing (already rounded to the second by the caller).
   */
  datatype Time = ZeroTime | WallClock(seconds: int)

  /** The protocol version field: its zero value, or the package's "no version" marker. */
  datatype Version = VersionNumber(n: int) | NoVersion

  /**
   * What the priority decoder answers when asked at the parser's cursor:
   * the priority and the cursor just past the marker, or a failure together
   * with wherever it left the cursor (the cursor is shared by reference).
   */
  datatype PriorityDecode =
    | Decoded(pri: Priority, cursor: int)
    | DecodeFailed(cursor: int)

  /** The fixed-key record handed to callers; Go strings are byte strings. */
  datatype LogParts = LogParts(
    timestamp: Time,
    hostname: seq<byte>,
    tag: seq<byte>,
    content: seq<byte>,
    priority: int,
    facility: int,
    severity: int)
}
