/**
 * The document the adapters exchange with a DHT binding. The source serialises it
 * as a flat JSON object of string fields; the model treats the serialised text as
 * the field map itself, so encoding is the construction of that map.
 */
module Codec {

  import opened Optional

  /** A flat document: field name to field value. */
  type Document = map<string, string>

  /** The names `read` copies out of a stored document: all of them when no field set is given. */
  function FieldsToReturn(doc: Document, fields: Option<set<string>>): set<string> {
    if fields.None? then doc.Keys else fields.value
  }

  /**
   * The stored document projected onto the requested fields. Every requested
   * field must be present in the document (the source does not guard this lookup).
   */
  function Projection(doc: Document, fields: Option<set<string>>): (p: Document)
    requires fields.Some? ==> fields.value <= doc.Keys
    ensures fields.None? ==> p.Keys == doc.Keys
    ensures fields.Some? ==> p.Keys == fields.value
    ensures forall f :: f in p ==> p[f] == doc[f]
  {
    map f | f in FieldsToReturn(doc, fields) :: doc[f]
  }

  /** Projecting without a field set gives back the whole stored document. */
  lemma ProjectionOfAll(doc: Document)
    ensures Projection(doc, None) == doc
  {
  }

  /** Projecting a document onto a subset of its fields keeps exactly those entries. */
  lemma ProjectionIsRestriction(doc: Document, fields: set<string>)
    requires fields <= doc.Keys
    ensures Projection(doc, Some(fields)) == map f | f in doc && f in fields :: doc[f]
  {
  }

  /**
   * Builds the document handed to the binding by putting every entry of `values`
   * into an initially empty document, one field at a time. No field is dropped
   * and every value is kept as its string form.
   */
  method Encode(values: map<string, string>) returns (doc: Document)
    ensures doc == values
  {
    doc := map[];
    var pending := values.Keys;
    while pending != {}
      invariant pending <= values.Keys
      invariant doc.Keys == values.Keys - pending
      invariant forall k :: k in doc ==> doc[k] == values[k]
      decreases pending
    {
      var k :| k in pending;
      doc := doc[k := values[k]];
      pending := pending - {k};
    }
  }

  /** The caller-owned map that `read` fills in place. */
  class FieldMap {
    var entries: map<string, string>

    constructor (entries: map<string, string>)
      ensures this.entries == entries
    {
      this.entries := entries;
    }
  }

  /**
   * Copies the returned fields of a stored document into `result`, one `put` at a
   * time; an entry already in `result` under the same name is overwritten, every
   * other entry of `result` is kept.
   */
  method PutFields(doc: Document, fields: Option<set<string>>, result: FieldMap)
    requires fields.Some? ==> fields.value <= doc.Keys
    modifies result
    ensures result.entries == old(result.entries) + Projection(doc, fields)
  {
    var names := FieldsToReturn(doc, fields);
    var pending := names;
    while pending != {}
      invariant pending <= names
      invariant result.entries.Keys == old(result.entries).Keys + (names - pending)
      invariant forall f :: f in names - pending ==> result.entries[f] == doc[f]
      invariant forall f :: f in old(result.entries) && f !in names - pending ==> result.entries[f] == old(result.entries)[f]
      decreases pending
    {
      var f :| f in pending;
      result.entries := result.entries[f := doc[f]];
      pending := pending - {f};
    }
  }
}
