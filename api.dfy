/**
 * The HTTP handlers for mines, poles and drone positions, run against the
 * in-memory store. Each mutating handler first compares the provided key
 * with the configured one and, on a mismatch, answers 401 without touching
 * the store. Creating a record inserts it and reads it back by its new id;
 * deleting all reports how many records went away; the latest drone position
 * is the one with the greatest id. No handler here talks to the WebSocket
 * connection manager.
 */
module Api {
  import opened Documents
  import opened EventStore

  const Mines := "mines"
  const Poles := "poles"
  const DronePositions := "drone_positions"

  /** A timestamp, carried as its ISO text; no handler stores or reads it. */
  datatype Timestamp = Timestamp(text: string)

  /** The body of a request to create a mine. */
  datatype MineCreate = MineCreate(latitude: Float, longitude: Float, caption: Option<string>, authKey: string)

  /** The body of a request to create a pole. */
  datatype PoleCreate = PoleCreate(latitude: Float, longitude: Float, caption: Option<string>, authKey: string)

  /** The body of a request reporting a drone position. */
  datatype DroneCreate = DroneCreate(latitude: Float, longitude: Float, recordedAt: Option<Timestamp>, authKey: string)

  /** What a handler answers. */
  datatype Response =
    | Unauthorized                        // 401 {"error": "unauthorized"}
    | NotFound                            // 404 {"error": "not found"}
    | Record(record: Option<Document>)    // 200, one serialized record (null when there is none)
    | Records(records: seq<Document>)     // 200, a list of serialized records
    | Accepted(data: Option<Document>)    // 200 {"status": "ok", "data": ...}
    | Deleted(count: nat)                 // 200 {"status": "deleted", "count": ...}

  function StatusCode(r: Response): (code: nat)
    ensures code == 401 <==> r.Unauthorized?
    ensures code == 404 <==> r.NotFound?
    ensures code in {200, 401, 404}
  {
    match r
    case Unauthorized => 401
    case NotFound => 404
    case _ => 200
  }

  function OptionalText(t: Option<string>): Value
  {
    match t
    case None => VNull
    case Some(s) => VText(s)
  }

  /** The document stored for a mine or a pole: its coordinates and label. */
  function LabelledDoc(latitude: Float, longitude: Float, caption: Option<string>): (d: Document)
    ensures d.Keys == {"latitude", "longitude", "label"}
    ensures d["latitude"] == VFloat(latitude) && d["longitude"] == VFloat(longitude)
    ensures d["label"] == OptionalText(caption)
  {
    map["latitude" := VFloat(latitude), "longitude" := VFloat(longitude), "label" := OptionalText(caption)]
  }

  /** The document stored for a drone position: its coordinates only. */
  function PositionDoc(latitude: Float, longitude: Float): (d: Document)
    ensures d.Keys == {"latitude", "longitude"}
    ensures d["latitude"] == VFloat(latitude) && d["longitude"] == VFloat(longitude)
  {
    map["latitude" := VFloat(latitude), "longitude" := VFloat(longitude)]
  }

  /**
   * A stored record serializes to its own fields plus "id", the text of the
   * id the store gave it, and nothing else.
   */
  lemma SerializedStoredRecord(doc: Document, oid: nat)
    requires StoreIdKey !in doc && IdKey !in doc
    ensures SerializeDoc(Some(Stored(doc, oid))) == Some(doc[IdKey := VText(ObjectIdText(oid))])
  {
    var d := Stored(doc, oid);
    assert d != map[] && HasStoreId(d) && d[StoreIdKey] == VObjectId(oid);
    assert d - {StoreIdKey} == doc;
  }

  /** The response for a list of stored records: each one serialized, in store order. */
  function SerializeAll(docs: seq<Document>): (records: seq<Document>)
    ensures |records| == |docs|
    ensures forall i :: 0 <= i < |docs| ==> Some(records[i]) == SerializeDoc(Some(docs[i]))
  {
    seq(|docs|, i requires 0 <= i < |docs| => SerializeDoc(Some(docs[i])).value)
  }

  /** Inserts the record into the collection, then reads it back by the id the insert returned. */
  method InsertAndReadBack(db: Database, name: string, doc: Document) returns (inserted: Option<Document>)
    requires db.Valid()
    requires StoreIdKey !in doc
    modifies db
    ensures db.Valid()
    ensures db.nextId == old(db.nextId) + 1
    ensures db.collections == old(db.collections)[name := old(db.Docs(name)) + [Stored(doc, old(db.nextId))]]
    ensures inserted == Some(Stored(doc, old(db.nextId)))
  {
    ghost var before := db.Docs(name);
    var id := db.InsertOne(name, doc);
    assert db.Docs(name) == before + [Stored(doc, old(db.nextId))];
    assert IdsAscending(db.Docs(name), db.nextId);
    forall j | 0 <= j < |before|
      ensures !Matches(db.Docs(name)[j], id)
    {
      assert ObjectIdOf(db.Docs(name)[j]) < ObjectIdOf(db.Docs(name)[|before|]);
    }
    assert Matches(db.Docs(name)[|before|], id);
    inserted := db.FindOne(name, id);
    ghost var docs := db.Docs(name);
    ghost var i :| 0 <= i < |docs| && inserted.value == docs[i] && Matches(docs[i], id);
    assert i == |before|;
  }

  method CreateMine(db: Database, environment: Option<string>, mine: MineCreate) returns (response: Response)
    requires db.Valid()
    modifies db
    ensures db.Valid()
    ensures !VerifyKey(ConfiguredAuthKey(environment), mine.authKey) ==>
              response == Unauthorized && db.collections == old(db.collections) && db.nextId == old(db.nextId)
    ensures StatusCode(response) == if VerifyKey(ConfiguredAuthKey(environment), mine.authKey) then 200 else 401
    ensures VerifyKey(ConfiguredAuthKey(environment), mine.authKey) ==>
              var stored := Stored(LabelledDoc(mine.latitude, mine.longitude, mine.caption), old(db.nextId));
              && db.collections == old(db.collections)[Mines := old(db.Docs(Mines)) + [stored]]
              && response == Record(SerializeDoc(Some(stored)))
  {
    if !VerifyKey(ConfiguredAuthKey(environment), mine.authKey) {
      return Unauthorized;
    }
    var doc := LabelledDoc(mine.latitude, mine.longitude, mine.caption);
    var inserted := InsertAndReadBack(db, Mines, doc);
    response := Record(SerializeDoc(inserted));
  }

  method DeleteMines(db: Database, environment: Option<string>, providedKey: string) returns (response: Response)
    requires db.Valid()
    modifies db
    ensures db.Valid()
    ensures !VerifyKey(ConfiguredAuthKey(environment), providedKey) ==>
              response == Unauthorized && db.collections == old(db.collections) && db.nextId == old(db.nextId)
    ensures StatusCode(response) == if VerifyKey(ConfiguredAuthKey(environment), providedKey) then 200 else 401
    ensures VerifyKey(ConfiguredAuthKey(environment), providedKey) ==>
              && response == Deleted(|old(db.Docs(Mines))|)
              && db.Docs(Mines) == []
              && (forall other :: other != Mines ==> db.Docs(other) == old(db.Docs(other)))
  {
    if !VerifyKey(ConfiguredAuthKey(environment), providedKey) {
      return Unauthorized;
    }
    var deletedCount := db.DeleteMany(Mines);
    response := Deleted(deletedCount);
  }

  method CreatePole(db: Database, environment: Option<string>, pole: PoleCreate) returns (response: Response)
    requires db.Valid()
    modifies db
    ensures db.Valid()
    ensures !VerifyKey(ConfiguredAuthKey(environment), pole.authKey) ==>
              response == Unauthorized && db.collections == old(db.collections) && db.nextId == old(db.nextId)
    ensures StatusCode(response) == if VerifyKey(ConfiguredAuthKey(environment), pole.authKey) then 200 else 401
    ensures VerifyKey(ConfiguredAuthKey(environment), pole.authKey) ==>
              var stored := Stored(LabelledDoc(pole.latitude, pole.longitude, pole.caption), old(db.nextId));
              && db.collections == old(db.collections)[Poles := old(db.Docs(Poles)) + [stored]]
              && response == Record(SerializeDoc(Some(stored)))
  {
    if !VerifyKey(ConfiguredAuthKey(environment), pole.authKey) {
      return Unauthorized;
    }
    var doc := LabelledDoc(pole.latitude, pole.longitude, pole.caption);
    var inserted := InsertAndReadBack(db, Poles, doc);
    response := Record(SerializeDoc(inserted));
  }

  method DeletePoles(db: Database, environment: Option<string>, providedKey: string) returns (response: Response)
    requires db.Valid()
    modifies db
    ensures db.Valid()
    ensures !VerifyKey(ConfiguredAuthKey(environment), providedKey) ==>
              response == Unauthorized && db.collections == old(db.collections) && db.nextId == old(db.nextId)
    ensures StatusCode(response) == if VerifyKey(ConfiguredAuthKey(environment), providedKey) then 200 else 401
    ensures VerifyKey(ConfiguredAuthKey(environment), providedKey) ==>
              && response == Deleted(|old(db.Docs(Poles))|)
              && db.Docs(Poles) == []
              && (forall other :: other != Poles ==> db.Docs(other) == old(db.Docs(other)))
  {
    if !VerifyKey(ConfiguredAuthKey(environment), providedKey) {
      return Unauthorized;
    }
    var deletedCount := db.DeleteMany(Poles);
    response := Deleted(deletedCount);
  }

  /**
   * Stores a drone position (its coordinates only; a reported timestamp is
   * not kept) and answers with the stored record. Nothing is broadcast.
   */
  method ReceiveDrone(db: Database, environment: Option<string>, drone: DroneCreate) returns (response: Response)
    requires db.Valid()
    modifies db
    ensures db.Valid()
    ensures !VerifyKey(ConfiguredAuthKey(environment), drone.authKey) ==>
              response == Unauthorized && db.collections == old(db.collections) && db.nextId == old(db.nextId)
    ensures StatusCode(response) == if VerifyKey(ConfiguredAuthKey(environment), drone.authKey) then 200 else 401
    ensures VerifyKey(ConfiguredAuthKey(environment), drone.authKey) ==>
              var stored := Stored(PositionDoc(drone.latitude, drone.longitude), old(db.nextId));
              && db.collections == old(db.collections)[DronePositions := old(db.Docs(DronePositions)) + [stored]]
              && response == Accepted(SerializeDoc(Some(stored)))
  {
    if !VerifyKey(ConfiguredAuthKey(environment), drone.authKey) {
      return Unauthorized;
    }
    var doc := PositionDoc(drone.latitude, drone.longitude);
    var inserted := InsertAndReadBack(db, DronePositions, doc);
    var payload := SerializeDoc(inserted);
    response := Accepted(payload);
  }

  method DeleteDrone(db: Database, environment: Option<string>, providedKey: string) returns (response: Response)
    requires db.Valid()
    modifies db
    ensures db.Valid()
    ensures !VerifyKey(ConfiguredAuthKey(environment), providedKey) ==>
              response == Unauthorized && db.collections == old(db.collections) && db.nextId == old(db.nextId)
    ensures StatusCode(response) == if VerifyKey(ConfiguredAuthKey(environment), providedKey) then 200 else 401
    ensures VerifyKey(ConfiguredAuthKey(environment), providedKey) ==>
              && response == Deleted(|old(db.Docs(DronePositions))|)
              && db.Docs(DronePositions) == []
              && (forall other :: other != DronePositions ==> db.Docs(other) == old(db.Docs(other)))
  {
    if !VerifyKey(ConfiguredAuthKey(environment), providedKey) {
      return Unauthorized;
    }
    var deletedCount := db.DeleteMany(DronePositions);
    response := Deleted(deletedCount);
  }

  /** Every record of a collection, serialized, in store order. */
  method ListCollection(db: Database, name: string) returns (response: Response)
    requires db.Valid()
    ensures response == Records(SerializeAll(db.Docs(name)))
    ensures |response.records| == |db.Docs(name)|
    ensures forall i :: 0 <= i < |db.Docs(name)| ==>
              && StoreIdKey !in response.records[i]
              && IdKey in response.records[i]
              && response.records[i][IdKey] == VText(Str(db.Docs(name)[i][StoreIdKey]))
    ensures forall i, j :: 0 <= i < j < |db.Docs(name)| ==> response.records[i] != response.records[j]
  {
    var docs := db.Docs(name);
    assert IdsAscending(docs, db.nextId);
    response := Records(SerializeAll(docs));
    forall i, j | 0 <= i < j < |docs|
      ensures response.records[i] != response.records[j]
    {
      if response.records[i] == response.records[j] {
        HexInjective(ObjectIdOf(docs[i]), ObjectIdOf(docs[j]), 24);
      }
    }
  }

  method GetPoles(db: Database) returns (response: Response)
    requires db.Valid()
    ensures response == Records(SerializeAll(db.Docs(Poles)))
  {
    response := ListCollection(db, Poles);
  }

  method GetMines(db: Database) returns (response: Response)
    requires db.Valid()
    ensures response == Records(SerializeAll(db.Docs(Mines)))
  {
    response := ListCollection(db, Mines);
  }

  method ListDrone(db: Database) returns (response: Response)
    requires db.Valid()
    ensures response == Records(SerializeAll(db.Docs(DronePositions)))
  {
    response := ListCollection(db, DronePositions);
  }

  /** The most recently stored drone position, or 404 when there is none. */
  method LatestDrone(db: Database) returns (response: Response)
    requires db.Valid()
    ensures response == NotFound <==> db.Docs(DronePositions) == []
    ensures StatusCode(response) == if db.Docs(DronePositions) == [] then 404 else 200
    ensures db.Docs(DronePositions) != [] ==>
              var docs := db.Docs(DronePositions);
              response == Record(SerializeDoc(Some(docs[|docs| - 1])))
  {
    var doc := db.FindLatest(DronePositions);
    if doc.None? || doc.value == map[] {
      return NotFound;
    }
    response := Record(SerializeDoc(doc));
  }

  /**
   * A position reported and then read back: the data of the answer is the
   * last record of the list and is what the latest-position query returns.
   */
  method ReportThenRead(db: Database, environment: Option<string>, drone: DroneCreate)
      returns (reported: Response, listed: Response, latest: Response)
    requires db.Valid()
    requires VerifyKey(ConfiguredAuthKey(environment), drone.authKey)
    modifies db
    ensures reported.Accepted? && listed.Records? && latest.Record?
    ensures listed.records != [] && Some(listed.records[|listed.records| - 1]) == reported.data
    ensures latest.record == reported.data
  {
    reported := ReceiveDrone(db, environment, drone);
    listed := ListDrone(db);
    latest := LatestDrone(db);
  }
}
