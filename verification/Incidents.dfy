/** The incident lifecycle states (respond/types.py). */
module Incidents {
  datatype IncidentState =
    | Triggered | Triaging | Investigating | Remediating
    | AwaitingApproval
    | Resolved | Escalated | Failed

  predicate Terminal(s: IncidentState) { s.Resolved? || s.Escalated? || s.Failed? }
}
