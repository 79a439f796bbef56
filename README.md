# DecentDHT YCSB adapters in Dafny

A model of the two YCSB `DB` adapters for DecentDHT: `DecentDHTClient`, over the
enclave-backed `DhtClientBinding`, and `DecentDHTNonEnclaveClient`, over the
ticket-batched `DhtClientNonEnclaveBinding`. Each adapter is a class with the
source's `isInited` flag and a binding handle. Its `init`, `cleanup`, `read`,
`insert`, `delete`, `update` and `scan` are methods. Their contracts say what the
adapter hands the binding, how the binding's outcome becomes a YCSB `Status`, and
what happens to the caller's `result` map and to the flag.

Modules:

- `Optional`: `Option`, which stands for a Java reference that may be null.
- `Codec`: the flat document (`map<string, string>`). It holds the
  document-building loop of `insert`/`update` (`Encode`), the field selection and
  projection of `read` (`FieldsToReturn`, `Projection`), and the in-place `put`
  loop into the caller's result map (`FieldMap`, `PutFields`).
- `Dht`: both bindings, as an abstract key-to-document `store`. Each binding call
  may fail with a message. Each binding keeps a ghost `log` of the calls it was
  handed and how each ended (`Event(call, outcome)`).
- `Ycsb`: `Status` (`Ok | Error(msg) | NotImplemented`) and `OutcomeOf`. A status
  reports a binding outcome: `Ok` for a call that returned, `Error(m)` for one
  that threw with message `m`.
- `Ticket`: `Long.parseLong` as `ParseLong`, and the ticket bound `init` selects
  (`TicketBound`).
- `DirectAdapter`, `NonEnclaveAdapter`: the two adapter classes.
- `Scenarios`: call sequences of one benchmark thread. They are insert then read,
  update then read, cleanup twice and init twice, each with what the adapter
  contracts let a caller conclude about it.

The binding is foreign code, so its failures are nondeterministic. A failed call
leaves the store unchanged. A successful write takes effect as a whole. A read of
a key that is not stored always fails. The `Decent.maxOpPerTicket` system property
is a parameter of `init` (`Option<string>`, `None` when unset).

The model follows the code, also where it departs from the lifecycle and
error handling one would expect of such an adapter:

- `init` has no guard against a second call. It calls the binding again every
  time (`Scenarios.InitTwiceDirect`).
- The lifecycle has no separate closed state. `cleanup` only clears `isInited`,
  and only after the binding's cleanup returns.
- `read`, `insert`, `update` and `delete` do not consult `isInited`.
- The ticket bound is not checked to be non-negative. Any value that fits a Java
  long is handed to the binding.
- `read` decides ERROR from the whole caller-supplied `result` map. Entries that
  were already in it count, not just the fields it copied.
- The enclave adapter's `update` is not atomic. If its insert fails after the
  delete succeeded, the key stays deleted, and the `Update` contract says so.

## Model

| member | source | states |
|---|---|---|
| Codec.Projection | decentdht/src/main/java/com/yahoo/ycsb/db/DecentDHTNonEnclaveClient.java:81-86 | the projected document holds every stored field when no field set is given and exactly the requested fields otherwise, each with its stored value |
| Codec.ProjectionOfAll | decentdht/src/main/java/com/yahoo/ycsb/db/DecentDHTClient.java:76-81 | projecting without a field set gives back the stored document unchanged |
| Codec.ProjectionIsRestriction | decentdht/src/main/java/com/yahoo/ycsb/db/DecentDHTClient.java:76-81 | projecting onto a subset of the stored fields is the stored document restricted to that subset |
| Codec.Encode | decentdht/src/main/java/com/yahoo/ycsb/db/DecentDHTClient.java:93-96 | the document built entry by entry equals the input map: no field dropped, every value kept |
| Codec.PutFields | decentdht/src/main/java/com/yahoo/ycsb/db/DecentDHTClient.java:77-81 | after the put loop, result is its old contents overridden by the projection of the stored document |
| Dht.DhtClientBinding.constructor | decentdht/src/main/java/com/yahoo/ycsb/db/DecentDHTClient.java:32-34 | a new binding handle has seen no calls |
| Dht.DhtClientBinding.Init | decentdht/src/main/java/com/yahoo/ycsb/db/DecentDHTClient.java:39 | the binding logs the parameterless init and its outcome; the store is untouched |
| Dht.DhtClientBinding.Cleanup | decentdht/src/main/java/com/yahoo/ycsb/db/DecentDHTClient.java:50 | the binding logs cleanup and its outcome; the store is untouched |
| Dht.DhtClientBinding.Read | decentdht/src/main/java/com/yahoo/ycsb/db/DecentDHTClient.java:69 | a read that returns gives the stored document of the key; a key not stored always fails |
| Dht.DhtClientBinding.Insert | decentdht/src/main/java/com/yahoo/ycsb/db/DecentDHTClient.java:100 | a successful insert maps the key to the document, a failed one changes nothing |
| Dht.DhtClientBinding.Delete | decentdht/src/main/java/com/yahoo/ycsb/db/DecentDHTClient.java:114 | a successful delete removes the key, a failed one changes nothing |
| Dht.DhtClientNonEnclaveBinding.constructor | decentdht/src/main/java/com/yahoo/ycsb/db/DecentDHTNonEnclaveClient.java:32-34 | a new binding handle has seen no calls |
| Dht.DhtClientNonEnclaveBinding.Init | decentdht/src/main/java/com/yahoo/ycsb/db/DecentDHTNonEnclaveClient.java:41-43 | the binding logs init with the ticket bound it was given, and its outcome |
| Dht.DhtClientNonEnclaveBinding.Cleanup | decentdht/src/main/java/com/yahoo/ycsb/db/DecentDHTNonEnclaveClient.java:55 | the binding logs cleanup and its outcome; the store is untouched |
| Dht.DhtClientNonEnclaveBinding.Read | decentdht/src/main/java/com/yahoo/ycsb/db/DecentDHTNonEnclaveClient.java:74 | a read that returns gives the stored document of the key; a key not stored always fails |
| Dht.DhtClientNonEnclaveBinding.Insert | decentdht/src/main/java/com/yahoo/ycsb/db/DecentDHTNonEnclaveClient.java:104 | a successful insert maps the key to the document, a failed one changes nothing |
| Dht.DhtClientNonEnclaveBinding.Update | decentdht/src/main/java/com/yahoo/ycsb/db/DecentDHTNonEnclaveClient.java:137 | a successful native update replaces the key's whole document, a failed one changes nothing |
| Dht.DhtClientNonEnclaveBinding.Delete | decentdht/src/main/java/com/yahoo/ycsb/db/DecentDHTNonEnclaveClient.java:118 | a successful delete removes the key, a failed one changes nothing |
| Ycsb.OutcomeOf | decentdht/src/main/java/com/yahoo/ycsb/db/DecentDHTClient.java:101-104 | OK reports exactly a binding call that returned; ERROR carries the exception's message |
| Ticket.ParseLong | decentdht/src/main/java/com/yahoo/ycsb/db/DecentDHTNonEnclaveClient.java:41 | a parsed property value fits a Java long and the string holds a digit |
| Ticket.ParseLongOfDecimal | decentdht/src/main/java/com/yahoo/ycsb/db/DecentDHTNonEnclaveClient.java:41 | every Java long written in decimal parses back to itself |
| Ticket.ParseLongPlusSign | decentdht/src/main/java/com/yahoo/ycsb/db/DecentDHTNonEnclaveClient.java:41 | a leading plus sign is accepted and does not change the value |
| Ticket.ParseLongRejectsNonDigit | decentdht/src/main/java/com/yahoo/ycsb/db/DecentDHTNonEnclaveClient.java:41 | a string with a character that is neither a digit nor a leading sign is not a long |
| Ticket.ParseLongRejectsExamples | decentdht/src/main/java/com/yahoo/ycsb/db/DecentDHTNonEnclaveClient.java:41 | "abc", the empty string and a lone sign are not longs |
| Ticket.TicketBound | decentdht/src/main/java/com/yahoo/ycsb/db/DecentDHTNonEnclaveClient.java:39-44 | an unset property gives -1, a set one its parsed long value |
| Ticket.TicketBoundUnbounded | decentdht/src/main/java/com/yahoo/ycsb/db/DecentDHTNonEnclaveClient.java:39-44 | both an unset property and "-1" select the unbounded bound -1 |
| Ticket.TicketBoundFifty | decentdht/src/main/java/com/yahoo/ycsb/db/DecentDHTNonEnclaveClient.java:39-44 | the property "50" gives the bound 50 |
| DirectAdapter.DecentDhtClient.constructor | decentdht/src/main/java/com/yahoo/ycsb/db/DecentDHTClient.java:29-34 | a new adapter is not initialised and owns a fresh binding |
| DirectAdapter.DecentDhtClient.Init | decentdht/src/main/java/com/yahoo/ycsb/db/DecentDHTClient.java:36-44 | the binding is initialised once; the flag becomes true only if that returned, and a failure is reported with the binding's message |
| DirectAdapter.DecentDhtClient.Cleanup | decentdht/src/main/java/com/yahoo/ycsb/db/DecentDHTClient.java:46-56 | the binding is cleaned up only while the flag is set; the flag is cleared only if that returned; without the flag nothing happens |
| DirectAdapter.DecentDhtClient.Read | decentdht/src/main/java/com/yahoo/ycsb/db/DecentDHTClient.java:68-83 | a binding failure gives ERROR with the message and leaves result untouched; otherwise result gains the projected stored fields and the status is ERROR exactly when result is empty; a key not stored gives ERROR |
| DirectAdapter.DecentDhtClient.Insert | decentdht/src/main/java/com/yahoo/ycsb/db/DecentDHTClient.java:88-105 | the binding is handed the key and a document of exactly the entries of values, once; the status reports its outcome |
| DirectAdapter.DecentDhtClient.Delete | decentdht/src/main/java/com/yahoo/ycsb/db/DecentDHTClient.java:108-119 | the binding is handed the key unchanged, once; the status reports its outcome |
| DirectAdapter.DecentDhtClient.Update | decentdht/src/main/java/com/yahoo/ycsb/db/DecentDHTClient.java:122-131 | delete comes first; if it fails its status is returned and no insert is attempted; otherwise the insert's status is returned; success maps the key to values and changes no other key |
| DirectAdapter.DecentDhtClient.Scan | decentdht/src/main/java/com/yahoo/ycsb/db/DecentDHTClient.java:134-137 | always NOT_IMPLEMENTED, and nothing is modified |
| NonEnclaveAdapter.DecentDhtNonEnclaveClient.constructor | decentdht/src/main/java/com/yahoo/ycsb/db/DecentDHTNonEnclaveClient.java:29-34 | a new adapter is not initialised and owns a fresh binding |
| NonEnclaveAdapter.DecentDhtNonEnclaveClient.Init | decentdht/src/main/java/com/yahoo/ycsb/db/DecentDHTNonEnclaveClient.java:36-49 | the binding is initialised once with -1 when the property is unset and with its parsed value otherwise; the flag becomes true only if that returned |
| NonEnclaveAdapter.DecentDhtNonEnclaveClient.Cleanup | decentdht/src/main/java/com/yahoo/ycsb/db/DecentDHTNonEnclaveClient.java:51-61 | the binding is cleaned up only while the flag is set; the flag is cleared only if that returned; without the flag nothing happens |
| NonEnclaveAdapter.DecentDhtNonEnclaveClient.Read | decentdht/src/main/java/com/yahoo/ycsb/db/DecentDHTNonEnclaveClient.java:73-88 | a binding failure gives ERROR with the message and leaves result untouched; otherwise result gains the projected stored fields and the status is ERROR exactly when result is empty; a key not stored gives ERROR |
| NonEnclaveAdapter.DecentDhtNonEnclaveClient.Insert | decentdht/src/main/java/com/yahoo/ycsb/db/DecentDHTNonEnclaveClient.java:97-108 | the binding is handed the key and a document of exactly the entries of values, once; the status reports its outcome |
| NonEnclaveAdapter.DecentDhtNonEnclaveClient.Delete | decentdht/src/main/java/com/yahoo/ycsb/db/DecentDHTNonEnclaveClient.java:114-122 | the binding is handed the key unchanged, once; the status reports its outcome |
| NonEnclaveAdapter.DecentDhtNonEnclaveClient.Update | decentdht/src/main/java/com/yahoo/ycsb/db/DecentDHTNonEnclaveClient.java:130-141 | the native update is handed the key and a document of exactly the entries of values, once; the status reports its outcome; success replaces the key's document |
| NonEnclaveAdapter.DecentDhtNonEnclaveClient.Scan | decentdht/src/main/java/com/yahoo/ycsb/db/DecentDHTNonEnclaveClient.java:145-148 | always NOT_IMPLEMENTED, and nothing is modified |
| Scenarios.InsertThenReadDirect | decentdht/src/main/java/com/yahoo/ycsb/db/DecentDHTClient.java:68-104 | after a successful insert and a read that returned, the fresh result map equals the inserted values; an empty document reads back as ERROR |
| Scenarios.InsertThenReadNonEnclave | decentdht/src/main/java/com/yahoo/ycsb/db/DecentDHTNonEnclaveClient.java:73-108 | after a successful insert and a read that returned, the fresh result map equals the inserted values; an empty document reads back as ERROR |
| Scenarios.UpdateThenReadDirect | decentdht/src/main/java/com/yahoo/ycsb/db/DecentDHTClient.java:68-131 | after a successful delete-then-insert update, an OK read returns exactly the new values and no old field |
| Scenarios.UpdateThenReadNonEnclave | decentdht/src/main/java/com/yahoo/ycsb/db/DecentDHTNonEnclaveClient.java:73-141 | after a successful native update, an OK read returns exactly the new values and no old field |
| Scenarios.CleanupTwiceDirect | decentdht/src/main/java/com/yahoo/ycsb/db/DecentDHTClient.java:46-56 | after a cleanup that returned, a second cleanup returns too and calls nothing |
| Scenarios.CleanupTwiceNonEnclave | decentdht/src/main/java/com/yahoo/ycsb/db/DecentDHTNonEnclaveClient.java:51-61 | after a cleanup that returned, a second cleanup returns too and calls nothing |
| Scenarios.InitTwiceDirect | decentdht/src/main/java/com/yahoo/ycsb/db/DecentDHTClient.java:36-44 | a second init is not refused: the binding is initialised twice and the flag is set if either call returned |

## Left out

- The DHT bindings' internals: network, enclave, ticket accounting and replication. These are foreign code. A binding call fails nondeterministically, and it takes effect as a whole or not at all. The ticket bound is only recorded in the binding's log.
- The `org.json` text format: `JSONObject` construction, `toString` and parsing. The serialised document is the field map itself, so a malformed stored document is not modelled.
- DirectAdapter.DecentDhtClient.Read: requires every requested field to be in the stored document. The source does not guard that lookup (`json.getString`), and the `JSONException` escapes `read` after a partial fill of `result`. The same holds for NonEnclaveAdapter.DecentDhtNonEnclaveClient.Read.
- NonEnclaveAdapter.DecentDhtNonEnclaveClient.Init: requires the property, when set, to be a valid long. In the source, `Long.parseLong` throws `NumberFormatException` out of `init` for anything else. `System.getProperty` is the `maxOpPerTicket` parameter.
- Ticket.ParseLong: accepts only the ASCII digits `0`-`9`. Java's `Character.digit` also accepts other Unicode decimal digits.
- `ByteIterator` and `StringByteIterator`: values are strings, so stringifying a value is the identity. A null value in `values`, which makes Java throw `NullPointerException`, cannot occur.
- The `table` argument, which every operation ignores. The `result` vector of `scan`, which `scan` never touches.
- The status names: the adapters' `"ERROR "` (with a trailing space) and YCSB's predefined `ERROR` are both `Error(msg)`.
- Concurrency. Calls on one adapter instance are sequential. A reader racing the direct adapter's update is not modelled; its window is visible only as the `Update` outcome where the delete succeeded and the insert failed.
