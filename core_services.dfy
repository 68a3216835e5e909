/**
 * The types every clowarden-core service handler shares: the summary of the
 * changes a pull request proposes, the status of the base reference's
 * configuration, and the record of one change applied during a reconcile.
 * A change is any value the service defines (`C`).
 */
module CoreServices {
  import opened Common

  /** A wall-clock instant, taken from the environment and never inspected. */
  datatype Timestamp = Timestamp(ticks: int)

  /** Status of the configuration in the base reference. */
  datatype BaseRefConfigStatus = Valid | Invalid | Unknown

  /** `is_invalid`: only `Invalid` counts; `Unknown` does not. */
  function IsInvalid(s: BaseRefConfigStatus): (b: bool)
    ensures b <==> s == Invalid
    ensures s == Unknown ==> !b
  {
    s.Invalid?
  }

  /** The changes found from the base to the head reference. */
  datatype ChangesSummary<C> = ChangesSummary(changes: seq<C>, baseRefConfigStatus: BaseRefConfigStatus)

  /** A change a reconcile attempted: `error` is the service's message when the call failed. */
  datatype ChangeApplied<C> = ChangeApplied(change: C, error: Option<string>, appliedAt: Timestamp)
}
