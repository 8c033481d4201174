/** The lines of the audit log that matter to other parts: which operation, with what outcome. */
module AuditTrail {
  import JsText

  datatype AuditOutcome = Attempted | Succeeded | Failed | AmbiguousOutcome

  datatype Line = Line(op: JsText.JsString, outcome: AuditOutcome)

  /** The log says how the operation ended: its backup may go. */
  predicate Terminal(log: seq<Line>, op: JsText.JsString) {
    Line(op, Succeeded) in log || Line(op, Failed) in log
  }
}
