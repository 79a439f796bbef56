/**
 * Call sequences a benchmark thread makes on one adapter, and what the adapters'
 * contracts alone let a caller conclude about them.
 */
module Scenarios {

  import opened Optional
  import opened Codec
  import opened Dht
  import opened Ycsb
  import opened DirectAdapter
  import opened NonEnclaveAdapter

  /**
   * Insert, then read every field back into a fresh map: when both binding calls
   * return, the map is exactly what was inserted, and an empty document reads
   * back as ERROR although the read itself succeeded.
   */
  method InsertThenReadDirect(c: DecentDhtClient, key: Key, values: map<string, string>)
    returns (inserted: Status, read: Status, result: FieldMap)
    modifies c.clientBind
    ensures fresh(result)
    ensures inserted.Ok? || inserted.Error?
    ensures |c.clientBind.log| == |old(c.clientBind.log)| + 2
    ensures c.clientBind.log[..|old(c.clientBind.log)|] == old(c.clientBind.log)
    ensures c.clientBind.log[|old(c.clientBind.log)|] == Event(Call.Insert(key, values), OutcomeOf(inserted))
    ensures c.clientBind.log[|old(c.clientBind.log)| + 1].call == Call.Read(key)
    ensures inserted.Ok? && c.clientBind.log[|c.clientBind.log| - 1].outcome.Pass? ==>
              result.entries == values && (read.Ok? <==> values != map[])
    ensures inserted.Ok? && values == map[] ==> read.Error?
  {
    inserted := c.Insert(key, values);
    result := new FieldMap(map[]);
    read := c.Read(key, None, result);
  }

  /** The same sequence on the ticket-batched adapter. */
  method InsertThenReadNonEnclave(c: DecentDhtNonEnclaveClient, key: Key, values: map<string, string>)
    returns (inserted: Status, read: Status, result: FieldMap)
    modifies c.clientBind
    ensures fresh(result)
    ensures inserted.Ok? || inserted.Error?
    ensures |c.clientBind.log| == |old(c.clientBind.log)| + 2
    ensures c.clientBind.log[..|old(c.clientBind.log)|] == old(c.clientBind.log)
    ensures c.clientBind.log[|old(c.clientBind.log)|] == Event(Call.Insert(key, values), OutcomeOf(inserted))
    ensures c.clientBind.log[|old(c.clientBind.log)| + 1].call == Call.Read(key)
    ensures inserted.Ok? && c.clientBind.log[|c.clientBind.log| - 1].outcome.Pass? ==>
              result.entries == values && (read.Ok? <==> values != map[])
    ensures inserted.Ok? && values == map[] ==> read.Error?
  {
    inserted := c.Insert(key, values);
    result := new FieldMap(map[]);
    read := c.Read(key, None, result);
  }

  /**
   * A successful update replaces the whole document: reading everything back
   * gives exactly the new values, whatever was stored under the key before.
   */
  method UpdateThenReadDirect(c: DecentDhtClient, key: Key, values: map<string, string>)
    returns (updated: Status, read: Status, result: FieldMap)
    modifies c.clientBind
    ensures fresh(result)
    ensures updated.Ok? ==> c.clientBind.store == old(c.clientBind.store)[key := values]
    ensures updated.Ok? && read.Ok? ==> result.entries == values
  {
    updated := c.Update(key, values);
    result := new FieldMap(map[]);
    read := c.Read(key, None, result);
  }

  /** The same for the native update of the ticket-batched adapter. */
  method UpdateThenReadNonEnclave(c: DecentDhtNonEnclaveClient, key: Key, values: map<string, string>)
    returns (updated: Status, read: Status, result: FieldMap)
    modifies c.clientBind
    ensures fresh(result)
    ensures updated.Ok? ==> c.clientBind.store == old(c.clientBind.store)[key := values]
    ensures updated.Ok? && read.Ok? ==> result.entries == values
  {
    updated := c.Update(key, values);
    result := new FieldMap(map[]);
    read := c.Read(key, None, result);
  }

  /** After a cleanup that returned, a second cleanup returns too and calls nothing. */
  method CleanupTwiceDirect(c: DecentDhtClient) returns (first: Outcome, second: Outcome)
    modifies c, c.clientBind
    ensures first.Pass? ==> second.Pass? && !c.isInited
    ensures first.Pass? ==>
              c.clientBind.log == old(c.clientBind.log) + (if old(c.isInited) then [Event(Call.Cleanup, Pass)] else [])
  {
    first := c.Cleanup();
    second := c.Cleanup();
  }

  /** The same for the ticket-batched adapter. */
  method CleanupTwiceNonEnclave(c: DecentDhtNonEnclaveClient) returns (first: Outcome, second: Outcome)
    modifies c, c.clientBind
    ensures first.Pass? ==> second.Pass? && !c.isInited
    ensures first.Pass? ==>
              c.clientBind.log == old(c.clientBind.log) + (if old(c.isInited) then [Event(Call.Cleanup, Pass)] else [])
  {
    first := c.Cleanup();
    second := c.Cleanup();
  }

  /**
   * `init` has no guard of its own: a second `init` hands the binding a second
   * initialisation, and the flag stays set if either succeeded.
   */
  method InitTwiceDirect(c: DecentDhtClient) returns (first: Outcome, second: Outcome)
    modifies c, c.clientBind
    ensures c.clientBind.log == old(c.clientBind.log) + [Event(Call.Init, first), Event(Call.Init, second)]
    ensures c.isInited == (old(c.isInited) || first.Pass? || second.Pass?)
  {
    first := c.Init();
    second := c.Init();
  }
}
