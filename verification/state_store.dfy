/**
 * The State Store's record (`data.json`): the configured ports and the time
 * of the last change, with the defaults that replace a missing or corrupt
 * record.
 */
module StateStore {
  import opened Wrappers

  datatype Record = Record(ports: seq<int>, lastUpdateTs: int)

  const DefaultPorts: seq<int> := [80, 443, 22, 25, 53]

  /**
   * What `readState` yields for the stored record: the record itself, or
   * the defaults stamped with the current time when it is missing or
   * cannot be parsed (None).
   */
  function Heal(stored: Option<Record>, now: int): (r: Record)
    ensures stored.Some? ==> r == stored.value
    ensures stored.None? ==> r.ports == DefaultPorts && r.lastUpdateTs == now
  {
    match stored
    case Some(r) => r
    case None => Record(DefaultPorts, now)
  }

  /** Once healed, a record stays as it is, whatever the clock says. */
  lemma HealStable(stored: Option<Record>, now: int, later: int)
    ensures Heal(Some(Heal(stored, now)), later) == Heal(stored, now)
  {
  }
}
