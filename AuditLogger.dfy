/**
 * The process-wide audit log: an append-only sequence of entries, each with a
 * timestamp, a free-text message and a severity tag (INFO, WARN, ERROR or
 * SUCCESS). The wall clock is abstracted as the logger's `clock` field, the
 * "HH:mm:ss" text that stamps every entry appended while it holds.
 */
module AuditLog {

  /** `kind` is the entry's Type. */
  datatype AuditLogEntry = AuditLogEntry(timestamp: string, message: string, kind: string)

  class AuditLogger {
    var logs: seq<AuditLogEntry>
    var clock: string

    constructor (clock: string)
      ensures this.logs == [] && this.clock == clock
    {
      this.logs := [];
      this.clock := clock;
    }

    /**
     * Appends exactly one entry at the end, stamped with the current clock;
     * the entries already logged stay as they are, in their order.
     */
    method Log(message: string, kind: string := "INFO")
      modifies this`logs
      ensures logs == old(logs) + [AuditLogEntry(clock, message, kind)]
      ensures |logs| == |old(logs)| + 1
      ensures logs[..|old(logs)|] == old(logs)
      ensures logs[|logs| - 1] == AuditLogEntry(clock, message, kind)
    {
      logs := logs + [AuditLogEntry(clock, message, kind)];
    }
  }
}
