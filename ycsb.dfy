/** The part of the YCSB `DB` contract the adapters use: the status every operation returns. */
module Ycsb {

  import opened Dht

  /** com.yahoo.ycsb.Status as the adapters produce it. */
  datatype Status = Ok | Error(msg: string) | NotImplemented

  /** The description of YCSB's predefined ERROR status. */
  const GenericError: string := "The operation failed."

  /**
   * The binding outcome a status reports: `Ok` reports a binding call that
   * returned, `Error(m)` one that threw with message `m`.
   */
  function OutcomeOf(s: Status): (o: Outcome)
    requires !s.NotImplemented?
    ensures o.Pass? <==> s.Ok?
  {
    if s.Ok? then Pass else Fail(s.msg)
  }
}
