/**
 * An in-memory stand-in for the document store behind the API: named
 * collections of documents, each record given a fresh object id on insert.
 * Only the operations the handlers use are modelled: insert one, find one
 * by id, find the one with the greatest id, list all, delete all.
 */
module EventStore {
  import opened Documents

  /** The record carries an object id under the store id key. */
  predicate HasObjectId(d: Document)
  {
    StoreIdKey in d && d[StoreIdKey].VObjectId?
  }

  function ObjectIdOf(d: Document): nat
    requires HasObjectId(d)
  {
    d[StoreIdKey].oid
  }

  /** The record's store id key holds `id`. */
  predicate Matches(d: Document, id: Value)
  {
    StoreIdKey in d && d[StoreIdKey] == id
  }

  /**
   * Every record has an object id below `bound`, and ids grow in insertion
   * order; in particular no two records share an id.
   */
  ghost predicate IdsAscending(docs: seq<Document>, bound: nat)
  {
    && (forall i :: 0 <= i < |docs| ==> HasObjectId(docs[i]) && ObjectIdOf(docs[i]) < bound)
    && (forall i, j :: 0 <= i < j < |docs| ==> ObjectIdOf(docs[i]) < ObjectIdOf(docs[j]))
  }

  /** The record as the store keeps it: the inserted fields plus the id assigned to it. */
  function Stored(doc: Document, oid: nat): (d: Document)
    ensures HasObjectId(d) && ObjectIdOf(d) == oid
    ensures forall k :: k != StoreIdKey ==> (k in d <==> k in doc) && (k in doc ==> d[k] == doc[k])
  {
    doc[StoreIdKey := VObjectId(oid)]
  }

  class Database {
    /** The collections by name; a name with no entry is an empty collection. */
    var collections: map<string, seq<Document>>
    /** The next object id the store hands out. */
    var nextId: nat

    ghost predicate Valid()
      reads this
    {
      forall name :: name in collections ==> IdsAscending(collections[name], nextId)
    }

    /** The records of one collection, in insertion order. */
    function Docs(name: string): seq<Document>
      reads this
    {
      if name in collections then collections[name] else []
    }

    constructor ()
      ensures Valid()
      ensures collections == map[] && nextId == 0
    {
      collections := map[];
      nextId := 0;
    }

    /** Appends the record to the collection under a fresh object id and returns that id. */
    method InsertOne(name: string, doc: Document) returns (insertedId: Value)
      requires Valid()
      requires StoreIdKey !in doc
      modifies this
      ensures Valid()
      ensures insertedId == VObjectId(old(nextId))
      ensures nextId == old(nextId) + 1
      ensures collections == old(collections)[name := old(Docs(name)) + [Stored(doc, old(nextId))]]
    {
      insertedId := VObjectId(nextId);
      collections := collections[name := Docs(name) + [Stored(doc, nextId)]];
      nextId := nextId + 1;
    }

    /** The first record of the collection whose store id is `id`, if there is one. */
    method FindOne(name: string, id: Value) returns (found: Option<Document>)
      ensures found.None? <==> forall i :: 0 <= i < |Docs(name)| ==> !Matches(Docs(name)[i], id)
      ensures found.Some? ==> exists i :: 0 <= i < |Docs(name)| && found.value == Docs(name)[i]
                                && Matches(Docs(name)[i], id)
                                && forall j :: 0 <= j < i ==> !Matches(Docs(name)[j], id)
    {
      var docs := Docs(name);
      var i := 0;
      while i < |docs|
        invariant 0 <= i <= |docs|
        invariant forall j :: 0 <= j < i ==> !Matches(docs[j], id)
      {
        if Matches(docs[i], id) {
          return Some(docs[i]);
        }
        i := i + 1;
      }
      return None;
    }

    /**
     * The record with the greatest object id, if the collection has any.
     * The store's ids come from one counter, so they grow in insertion order
     * and that record is the last one inserted.
     */
    method FindLatest(name: string) returns (latest: Option<Document>)
      requires Valid()
      ensures latest.None? <==> Docs(name) == []
      ensures latest.Some? ==> latest.value == Docs(name)[|Docs(name)| - 1]
    {
      var docs := Docs(name);
      if |docs| == 0 {
        return None;
      }
      assert IdsAscending(docs, nextId);
      var best := 0;
      var i := 1;
      while i < |docs|
        invariant 1 <= i <= |docs| && 0 <= best < i
        invariant forall j :: 0 <= j < i ==> ObjectIdOf(docs[j]) <= ObjectIdOf(docs[best])
      {
        if ObjectIdOf(docs[i]) > ObjectIdOf(docs[best]) {
          best := i;
        }
        i := i + 1;
      }
      assert best == |docs| - 1 by {
        assert ObjectIdOf(docs[|docs| - 1]) <= ObjectIdOf(docs[best]);
      }
      latest := Some(docs[best]);
    }

    /** Empties the collection and returns how many records it held. */
    method DeleteMany(name: string) returns (deletedCount: nat)
      requires Valid()
      modifies this
      ensures Valid()
      ensures deletedCount == |old(Docs(name))|
      ensures Docs(name) == []
      ensures forall other :: other != name ==> Docs(other) == old(Docs(other))
      ensures nextId == old(nextId)
    {
      deletedCount := |Docs(name)|;
      if name in collections {
        collections := collections[name := []];
      }
    }
  }
}
