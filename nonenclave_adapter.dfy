/**
 * The YCSB adapter over the ticket-batched binding (class
 * DecentDHTNonEnclaveClient). Its binding takes a ticket bound at
 * initialisation and offers a native update.
 */
module NonEnclaveAdapter {

  import opened Optional
  import opened Codec
  import opened Dht
  import opened Ycsb
  import opened Ticket

  class DecentDhtNonEnclaveClient {
    var isInited: bool
    const clientBind: DhtClientNonEnclaveBinding

    constructor ()
      ensures !isInited && fresh(clientBind) && clientBind.log == []
    {
      isInited := false;
      clientBind := new DhtClientNonEnclaveBinding();
    }

    /**
     * Initialises the binding with the ticket bound taken from the
     * `Decent.maxOpPerTicket` property (`maxOpPerTicket`, None when unset).
     * A binding failure is rethrown as DBException (here `Fail` with the
     * binding's message) and leaves the flag as it was.
     */
    method Init(maxOpPerTicket: Option<string>) returns (r: Outcome)
      requires maxOpPerTicket.Some? ==> ParseLong(maxOpPerTicket.value).Some?
      modifies this, clientBind
      ensures clientBind.log == old(clientBind.log) + [Event(InitWithBound(TicketBound(maxOpPerTicket)), r)]
      ensures maxOpPerTicket.None? ==> clientBind.log == old(clientBind.log) + [Event(InitWithBound(-1), r)]
      ensures clientBind.store == old(clientBind.store)
      ensures isInited == (r.Pass? || old(isInited))
    {
      if maxOpPerTicket.Some? {
        r := clientBind.Init(ParseLong(maxOpPerTicket.value).value);
      } else {
        r := clientBind.Init(-1);
      }
      if r.Fail? {
        return;
      }
      isInited := true;
    }

    /**
     * Cleans the binding up once: only while the flag is set, and the flag is
     * cleared only when the binding's cleanup returns. Otherwise nothing happens.
     */
    method Cleanup() returns (r: Outcome)
      modifies this, clientBind
      ensures old(isInited) ==> clientBind.log == old(clientBind.log) + [Event(Call.Cleanup, r)]
      ensures old(isInited) ==> isInited == r.Fail?
      ensures !old(isInited) ==> r == Pass && clientBind.log == old(clientBind.log) && !isInited
      ensures clientBind.store == old(clientBind.store)
    {
      r := Pass;
      if isInited {
        r := clientBind.Cleanup();
        if r.Fail? {
          return;
        }
        isInited := false;
      }
    }

    /**
     * Reads the document of `key` and copies the requested fields (all of them
     * when `fields` is None) into `result`. A binding failure leaves `result` as
     * it was; otherwise the status is ERROR exactly when `result` is empty.
     */
    method Read(key: Key, fields: Option<set<string>>, result: FieldMap) returns (s: Status)
      requires key in clientBind.store && fields.Some? ==> fields.value <= clientBind.store[key].Keys
      modifies clientBind, result
      ensures clientBind.store == old(clientBind.store)
      ensures s.Ok? || s.Error?
      ensures || (&& s.Error?
                  && clientBind.log == old(clientBind.log) + [Event(Call.Read(key), Fail(s.msg))]
                  && result.entries == old(result.entries))
              || (&& clientBind.log == old(clientBind.log) + [Event(Call.Read(key), Pass)]
                  && key in clientBind.store
                  && result.entries == old(result.entries) + Projection(clientBind.store[key], fields)
                  && s == (if result.entries == map[] then Error(GenericError) else Ok))
      ensures key !in old(clientBind.store) ==> s.Error? && result.entries == old(result.entries)
    {
      var o, buffer := clientBind.Read(key);
      if o.Fail? {
        return Error(o.msg);
      }
      PutFields(buffer, fields, result);
      s := if result.entries == map[] then Error(GenericError) else Ok;
    }

    /** Hands the binding `key` and the document of exactly the entries of `values`. */
    method Insert(key: Key, values: map<string, string>) returns (s: Status)
      modifies clientBind
      ensures s.Ok? || s.Error?
      ensures clientBind.log == old(clientBind.log) + [Event(Call.Insert(key, values), OutcomeOf(s))]
      ensures clientBind.store == if s.Ok? then old(clientBind.store)[key := values] else old(clientBind.store)
    {
      var json := Encode(values);
      var o := clientBind.Insert(key, json);
      if o.Fail? {
        return Error(o.msg);
      }
      return Ok;
    }

    method Delete(key: Key) returns (s: Status)
      modifies clientBind
      ensures s.Ok? || s.Error?
      ensures clientBind.log == old(clientBind.log) + [Event(Call.Delete(key), OutcomeOf(s))]
      ensures clientBind.store == if s.Ok? then old(clientBind.store) - {key} else old(clientBind.store)
    {
      var o := clientBind.Delete(key);
      if o.Fail? {
        return Error(o.msg);
      }
      return Ok;
    }

    /**
     * Hands the binding's native update `key` and the document of exactly the
     * entries of `values`; the stored document is replaced as a whole.
     */
    method Update(key: Key, values: map<string, string>) returns (s: Status)
      modifies clientBind
      ensures s.Ok? || s.Error?
      ensures clientBind.log == old(clientBind.log) + [Event(Call.Update(key, values), OutcomeOf(s))]
      ensures clientBind.store == if s.Ok? then old(clientBind.store)[key := values] else old(clientBind.store)
    {
      var json := Encode(values);
      var o := clientBind.Update(key, json);
      if o.Fail? {
        return Error(o.msg);
      }
      return Ok;
    }

    /** Range scans are not supported; nothing is touched. */
    method Scan(startKey: Key, recordCount: int, fields: Option<set<string>>) returns (s: Status)
      ensures s == NotImplemented
    {
      return NotImplemented;
    }
  }
}
