/**
 * The external services one message touches: the photo bucket (read), the
 * face bucket (written) and the `photo` table (appended to). Each call is
 * recorded in an effect log so that the order of calls can be stated.
 */
module Cloud {
  import opened Wrappers
  import opened Errors

  newtype byte = x: int | 0 <= x < 256

  type Bytes = seq<byte>

  /** The range of `getrandbits(64)`. */
  newtype u64 = x: int | 0 <= x < 0x1_0000_0000_0000_0000

  const PhotoTableName: string := "photo"

  /** The content type every face object is written with. */
  const OctetStream: string := "application/octet-stream"

  datatype StoredObject = StoredObject(body: Bytes, contentType: string)

  /** A row `(id, original_id, face_id)` of the `photo` table. */
  datatype Row = Row(id: u64, originalId: string, faceId: string)

  /** One call to an external service, recorded whether or not it succeeded. */
  datatype Effect =
    | Fetch(name: string)
    | Put(name: string)
    | Insert(table: string, row: Row)

  datatype World = World(
    photos: map<string, Bytes>,
    faces: map<string, StoredObject>,
    photoTable: seq<Row>,
    log: seq<Effect>)

  /** What a call returned, and the services afterwards. */
  datatype Reply<T> = Reply(result: Result<T, Error>, world: World)

  /** `get_object` on the photo bucket: the object's body, unless it is missing or the call fails. */
  function FetchObject(w: World, name: string, fails: bool): (r: Reply<Bytes>)
    ensures r.world == w.(log := w.log + [Fetch(name)])
    ensures r.result.Success? <==> !fails && name in w.photos
    ensures r.result.Success? ==> r.result.value == w.photos[name]
    ensures r.result.Failure? ==> r.result.error == FetchError
  {
    var w' := w.(log := w.log + [Fetch(name)]);
    if !fails && name in w.photos then Reply(Success(w.photos[name]), w')
    else Reply(Failure(FetchError), w')
  }

  /** `put_object` on the face bucket: replaces any object under `name`, unless the call fails. */
  function PutObject(w: World, name: string, content: Bytes, fails: bool): (r: Reply<()>)
    ensures r.world.photos == w.photos && r.world.photoTable == w.photoTable
    ensures r.world.log == w.log + [Put(name)]
    ensures r.result.Success? <==> !fails
    ensures r.result.Success? ==> r.world.faces == w.faces[name := StoredObject(content, OctetStream)]
    ensures r.result.Failure? ==> r.result.error == StoreError && r.world.faces == w.faces
  {
    var logged := w.(log := w.log + [Put(name)]);
    if fails then Reply(Failure(StoreError), logged)
    else Reply(Success(()), logged.(faces := w.faces[name := StoredObject(content, OctetStream)]))
  }

  /** One committed INSERT into the `photo` table, unless the transaction fails. */
  function InsertRow(w: World, row: Row, fails: bool): (r: Reply<()>)
    ensures r.world.photos == w.photos && r.world.faces == w.faces
    ensures r.world.log == w.log + [Insert(PhotoTableName, row)]
    ensures r.result.Success? <==> !fails
    ensures r.result.Success? ==> r.world.photoTable == w.photoTable + [row]
    ensures r.result.Failure? ==> r.result.error == DatabaseError && r.world.photoTable == w.photoTable
  {
    var logged := w.(log := w.log + [Insert(PhotoTableName, row)]);
    if fails then Reply(Failure(DatabaseError), logged)
    else Reply(Success(()), logged.(photoTable := w.photoTable + [row]))
  }

  /** The buckets and the table, updated in place by the calls the worker makes. */
  class Services {
    var photos: map<string, Bytes>
    var faces: map<string, StoredObject>
    var photoTable: seq<Row>
    var log: seq<Effect>

    function State(): World
      reads this
    {
      World(photos, faces, photoTable, log)
    }

    constructor (photos: map<string, Bytes>, faces: map<string, StoredObject>, photoTable: seq<Row>)
      ensures State() == World(photos, faces, photoTable, [])
    {
      this.photos := photos;
      this.faces := faces;
      this.photoTable := photoTable;
      this.log := [];
    }

    /** Reads the object `name` of the photo bucket; `fails` stands for a failure of the storage service. */
    method GetImage(name: string, fails: bool) returns (r: Result<Bytes, Error>)
      modifies this
      ensures photos == old(photos) && faces == old(faces) && photoTable == old(photoTable)
      ensures log == old(log) + [Fetch(name)]
      ensures r.Success? <==> !fails && name in photos
      ensures r.Success? ==> r.value == photos[name]
      ensures r.Failure? ==> r.error == FetchError
      ensures Reply(r, State()) == FetchObject(old(State()), name, fails)
    {
      log := log + [Fetch(name)];
      if fails || name !in photos {
        return Failure(FetchError);
      }
      return Success(photos[name]);
    }

    /** Writes `content` under `name` in the face bucket; `fails` stands for a rejected write. */
    method PutImage(name: string, content: Bytes, fails: bool) returns (r: Result<(), Error>)
      modifies this
      ensures photos == old(photos) && photoTable == old(photoTable)
      ensures log == old(log) + [Put(name)]
      ensures r.Success? <==> !fails
      ensures r.Failure? ==> r.error == StoreError && faces == old(faces)
      ensures r.Success? ==> faces == old(faces)[name := StoredObject(content, OctetStream)]
      ensures Reply(r, State()) == PutObject(old(State()), name, content, fails)
    {
      log := log + [Put(name)];
      if fails {
        return Failure(StoreError);
      }
      faces := faces[name := StoredObject(content, OctetStream)];
      return Success(());
    }

    /**
     * Inserts the row `(id, originalId, faceId)` into the `photo` table; `id`
     * is the 64 random bits drawn for it and `fails` a failed transaction.
     */
    method AddImageInfoToDb(originalId: string, faceId: string, id: u64, fails: bool) returns (r: Result<(), Error>)
      modifies this
      ensures photos == old(photos) && faces == old(faces)
      ensures log == old(log) + [Insert(PhotoTableName, Row(id, originalId, faceId))]
      ensures r.Success? <==> !fails
      ensures r.Failure? ==> r.error == DatabaseError && photoTable == old(photoTable)
      ensures r.Success? ==> photoTable == old(photoTable) + [Row(id, originalId, faceId)]
      ensures Reply(r, State()) == InsertRow(old(State()), Row(id, originalId, faceId), fails)
    {
      var row := Row(id, originalId, faceId);
      log := log + [Insert(PhotoTableName, row)];
      if fails {
        return Failure(DatabaseError);
      }
      photoTable := photoTable + [row];
      return Success(());
    }
  }
}
