/**
 * The alerts the monitor raises and the in-memory buffer that collects
 * them between flushes (monitor.py). An alert is kept as the event it
 * reports; the time stamp and the text formatting are not modelled.
 */
module Alerts {
  import opened Parsers

  datatype Alert =
    /** "Heimdall check cycle failed: " + the probe's error message. */
    | CycleFailed(msg: string)
    /** "User count not available - the server might not be responding!" */
    | UserCountNotAvailable
    /** A check found its configuration entry absent ("<check>/BUG: <key> is not present!"). */
    | ConfigMissing(key: string)
    /** "<check>/BUG: 'heimdall' component is missing from result!" */
    | HeimdallNotInResult
    /** "<component> component missing from `which on heimdall <port>:<id>" */
    | ComponentMissing(component: string, port: Value, id: Value)
    /** "`which delay above threshold (<delay> > <threshold>) - there might be lag!" */
    | DelayAboveThreshold(delay: real, threshold: real)
    /** "Player global ID desync: heim/<h> hort/<o> trib/<t>" */
    | GlobalIdDesync(heimdall: Value, horton: Value, tribble: Value)
    /** "Heimdall <id> has been missing (last seen <secs> secs ago)" */
    | HeimdallMissing(id: Value, lastSeenAgo: real)
    /** "<tracker>/BUG: Unknown heimdall ID detected: <id>" */
    | UnknownHeimdall(id: Value)

  /** G_ALERT_BUFFER with `alert` and `flush_alert_buffer`. */
  class AlertBuffer {
    var entries: seq<Alert>

    constructor()
      ensures entries == []
    {
      entries := [];
    }

    /** `alert`: one more entry at the end, nothing else changes. */
    method Alert(a: Alert)
      modifies this
      ensures entries == old(entries) + [a]
    {
      entries := entries + [a];
    }

    /** `flush_alert_buffer`: every buffered alert, in order, and an empty buffer. */
    method Flush() returns (all: seq<Alert>)
      modifies this
      ensures all == old(entries)
      ensures entries == []
    {
      all := entries;
      entries := [];
    }
  }
}
