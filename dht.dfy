/**
 * The two external DHT client bindings, modelled as an abstract key-to-document
 * store whose every call may fail. Each binding keeps a log of the calls it was
 * handed and how each ended, so that the adapters' contracts can say exactly what
 * they asked of the binding.
 */
module Dht {

  import opened Codec

  type Key = string

  /** How a binding call ended: it returned, or it threw DhtClientBindingException with a message. */
  datatype Outcome = Pass | Fail(msg: string)

  /** A call handed to a binding, with the arguments the binding received. */
  datatype Call =
    | Init
    | InitWithBound(maxOpPerTicket: int)
    | Cleanup
    | Read(key: Key)
    | Insert(key: Key, doc: Document)
    | Update(key: Key, doc: Document)
    | Delete(key: Key)

  datatype Event = Event(call: Call, outcome: Outcome)

  /** Any outcome at all: the binding's network, enclave and replication layers may fail at will. */
  method AnyOutcome() returns (o: Outcome)
  {
    var fails: bool :| true;
    if fails {
      var msg: string :| true;
      o := Fail(msg);
    } else {
      o := Pass;
    }
  }

  /** The enclave-backed binding: initialised without parameters, no native update. */
  class DhtClientBinding {
    var store: map<Key, Document>
    ghost var log: seq<Event>

    constructor ()
      ensures log == []
    {
      var contents: map<Key, Document> :| true;
      store := contents;
      log := [];
    }

    method Init() returns (o: Outcome)
      modifies this
      ensures log == old(log) + [Event(Call.Init, o)]
      ensures store == old(store)
    {
      o := AnyOutcome();
      log := log + [Event(Call.Init, o)];
    }

    method Cleanup() returns (o: Outcome)
      modifies this
      ensures log == old(log) + [Event(Call.Cleanup, o)]
      ensures store == old(store)
    {
      o := AnyOutcome();
      log := log + [Event(Call.Cleanup, o)];
    }

    /** Returns the stored document of `key`; a key that is not stored always fails. */
    method Read(key: Key) returns (o: Outcome, doc: Document)
      modifies this
      ensures log == old(log) + [Event(Call.Read(key), o)]
      ensures store == old(store)
      ensures key !in store ==> o.Fail?
      ensures o.Pass? ==> key in store && doc == store[key]
    {
      o := AnyOutcome();
      if key !in store && o.Pass? {
        o := Fail("not found");
      }
      doc := if o.Pass? then store[key] else map[];
      log := log + [Event(Call.Read(key), o)];
    }

    method Insert(key: Key, doc: Document) returns (o: Outcome)
      modifies this
      ensures log == old(log) + [Event(Call.Insert(key, doc), o)]
      ensures store == if o.Pass? then old(store)[key := doc] else old(store)
    {
      o := AnyOutcome();
      if o.Pass? {
        store := store[key := doc];
      }
      log := log + [Event(Call.Insert(key, doc), o)];
    }

    method Delete(key: Key) returns (o: Outcome)
      modifies this
      ensures log == old(log) + [Event(Call.Delete(key), o)]
      ensures store == if o.Pass? then old(store) - {key} else old(store)
    {
      o := AnyOutcome();
      if o.Pass? {
        store := store - {key};
      }
      log := log + [Event(Call.Delete(key), o)];
    }
  }

  /**
   * The ticket-batched binding: initialised with a maximum number of operations
   * per ticket (-1 for unbounded), and offering an update that replaces the whole
   * stored document.
   */
  class DhtClientNonEnclaveBinding {
    var store: map<Key, Document>
    ghost var log: seq<Event>

    constructor ()
      ensures log == []
    {
      var contents: map<Key, Document> :| true;
      store := contents;
      log := [];
    }

    method Init(maxOpPerTicket: int) returns (o: Outcome)
      modifies this
      ensures log == old(log) + [Event(InitWithBound(maxOpPerTicket), o)]
      ensures store == old(store)
    {
      o := AnyOutcome();
      log := log + [Event(InitWithBound(maxOpPerTicket), o)];
    }

    method Cleanup() returns (o: Outcome)
      modifies this
      ensures log == old(log) + [Event(Call.Cleanup, o)]
      ensures store == old(store)
    {
      o := AnyOutcome();
      log := log + [Event(Call.Cleanup, o)];
    }

    /** Returns the stored document of `key`; a key that is not stored always fails. */
    method Read(key: Key) returns (o: Outcome, doc: Document)
      modifies this
      ensures log == old(log) + [Event(Call.Read(key), o)]
      ensures store == old(store)
      ensures key !in store ==> o.Fail?
      ensures o.Pass? ==> key in store && doc == store[key]
    {
      o := AnyOutcome();
      if key !in store && o.Pass? {
        o := Fail("not found");
      }
      doc := if o.Pass? then store[key] else map[];
      log := log + [Event(Call.Read(key), o)];
    }

    method Insert(key: Key, doc: Document) returns (o: Outcome)
      modifies this
      ensures log == old(log) + [Event(Call.Insert(key, doc), o)]
      ensures store == if o.Pass? then old(store)[key := doc] else old(store)
    {
      o := AnyOutcome();
      if o.Pass? {
        store := store[key := doc];
      }
      log := log + [Event(Call.Insert(key, doc), o)];
    }

    /** Replaces the whole stored document: fields absent from `doc` are gone afterwards. */
    method Update(key: Key, doc: Document) returns (o: Outcome)
      modifies this
      ensures log == old(log) + [Event(Call.Update(key, doc), o)]
      ensures store == if o.Pass? then old(store)[key := doc] else old(store)
    {
      o := AnyOutcome();
      if o.Pass? {
        store := store[key := doc];
      }
      log := log + [Event(Call.Update(key, doc), o)];
    }

    method Delete(key: Key) returns (o: Outcome)
      modifies this
      ensures log == old(log) + [Event(Call.Delete(key), o)]
      ensures store == if o.Pass? then old(store) - {key} else old(store)
    {
      o := AnyOutcome();
      if o.Pass? {
        store := store - {key};
      }
      log := log + [Event(Call.Delete(key), o)];
    }
  }
}
