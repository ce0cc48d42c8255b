/**
 * The webhook worker: one event message becomes a face crop in the face
 * bucket and a row of the `photo` table; a batch of messages is handled
 * one message at a time, each failure caught and skipped.
 */
module FaceCut {
  import opened Wrappers
  import opened Errors
  import opened Geometry
  import opened FaceKeys
  import opened Images
  import opened Cloud

  /** The decoded `body` of a message; a field the JSON lacks is `None`. */
  datatype Body = Body(objectKey: Option<string>, face: Option<seq<RawPoint>>)

  /** An event message; `None` when `details.message.body` is missing or is not JSON. */
  datatype Message = Message(body: Option<Body>)

  /** The request JSON; `None` when it has no `messages`. */
  datatype Request = Request(messages: Option<seq<Message>>)

  /**
   * What the outside world answers while one message is processed: whether
   * the fetch, the write and the insert fail, and the 64 random bits drawn
   * for the row id.
   */
  datatype Oracle = Oracle(fetchFails: bool, putFails: bool, insertFails: bool, randomId: u64)

  /** The image library: decoding a photo's bytes, and encoding an image as JPEG. */
  datatype Codec = Codec(decode: Bytes -> Option<Image>, encode: Image -> Option<Bytes>)

  const HttpOk: int := 200

  /** The photo key, read from the body before the photo is fetched. */
  function ObjectKeyOf(m: Message): (r: Result<string, Error>)
    ensures r.Success? <==> m.body.Some? && m.body.value.objectKey.Some?
    ensures r.Success? ==> r.value == m.body.value.objectKey.value
    ensures r.Failure? ==> r.error == ParseError
  {
    if m.body.None? || m.body.value.objectKey.None? then Failure(ParseError)
    else Success(m.body.value.objectKey.value)
  }

  /**
   * Everything between the fetch and the write: decode the photo, read the
   * face points, derive the box, crop and encode as JPEG.
   */
  function CutFace(body: Body, photo: Bytes, codec: Codec): (r: Result<Bytes, Error>)
    ensures codec.decode(photo).None? ==> r == Failure(DecodeError)
    ensures codec.decode(photo).Some? && body.face.None? ==> r == Failure(ParseError)
    ensures r.Success? ==> && codec.decode(photo).Some? && body.face.Some?
                           && Coordinates(body.face.value).Success?
                           && BoxOf(Coordinates(body.face.value).value).Success?
    ensures r.Failure? ==> r.error in {DecodeError, ParseError, GeometryError, EncodeError}
  {
    match codec.decode(photo)
    case None => Failure(DecodeError)
    case Some(image) =>
      if body.face.None? then Failure(ParseError)
      else
        match Coordinates(body.face.value)
        case Failure(e) => Failure(e)
        case Success(coords) =>
          match BoxOf(coords)
          case Failure(e) => Failure(e)
          case Success(box) =>
            match codec.encode(Crop(image, box))
            case None => Failure(EncodeError)
            case Some(content) => Success(content)
  }

  /** `process_message`: what one message does to the services, and whether it raises. */
  function Process(w: World, m: Message, o: Oracle, codec: Codec): (r: Reply<()>)
  {
    match ObjectKeyOf(m)
    case Failure(e) => Reply(Failure(e), w)
    case Success(key) =>
      var fetched := FetchObject(w, key, o.fetchFails);
      match fetched.result
      case Failure(e) => Reply(Failure(e), fetched.world)
      case Success(photo) =>
        match CutFace(m.body.value, photo, codec)
        case Failure(e) => Reply(Failure(e), fetched.world)
        case Success(content) =>
          var faceId := FaceKey(key, 0);
          var put := PutObject(fetched.world, faceId, content, o.putFails);
          if put.result.Failure? then put
          else InsertRow(put.world, Row(o.randomId, key, faceId), o.insertFails)
  }

  /** `process_message`, step by step against the services. */
  method ProcessMessage(svc: Services, message: Message, o: Oracle, codec: Codec) returns (r: Result<(), Error>)
    modifies svc
    ensures Reply(r, svc.State()) == Process(old(svc.State()), message, o, codec)
  {
    if message.body.None? {
      return Failure(ParseError);
    }
    var body := message.body.value;
    if body.objectKey.None? {
      return Failure(ParseError);
    }
    var objectKey := body.objectKey.value;
    var photo :- svc.GetImage(objectKey, o.fetchFails);
    var decoded := codec.decode(photo);
    if decoded.None? {
      return Failure(DecodeError);
    }
    var image := decoded.value;
    if body.face.None? {
      return Failure(ParseError);
    }
    var face := body.face.value;
    var faceNum := 0;
    var coords :- CollectCoordinates(face);
    var box :- BoxOf(coords);
    var faceId := FaceKey(objectKey, faceNum);
    var cutFace := Crop(image, box);
    var encoded := codec.encode(cutFace);
    if encoded.None? {
      return Failure(EncodeError);
    }
    var stored :- svc.PutImage(faceId, encoded.value, o.putFails);
    faceNum := faceNum + 1;
    r := svc.AddImageInfoToDb(objectKey, faceId, o.randomId, o.insertFails);
  }

  /** The outcome of every message of a batch, in order, and the services afterwards. */
  datatype BatchRun = BatchRun(outcomes: seq<Result<(), Error>>, world: World)

  /** The loop of `hello`: message `k` is processed with the answers `env(k)`. */
  function Batch(w: World, ms: seq<Message>, env: nat -> Oracle, codec: Codec): (r: BatchRun)
    ensures |r.outcomes| == |ms|
    decreases |ms|
  {
    if ms == [] then BatchRun([], w)
    else
      var before := Batch(w, ms[..|ms| - 1], env, codec);
      var step := Process(before.world, ms[|ms| - 1], env(|ms| - 1), codec);
      BatchRun(before.outcomes + [step.result], step.world)
  }

  /** `hello`: every message is tried once, in order; per-message failures never escape. */
  method Hello(svc: Services, request: Request, env: nat -> Oracle, codec: Codec) returns (status: Result<int, Error>)
    modifies svc
    ensures request.messages.None? ==> status == Failure(ParseError) && svc.State() == old(svc.State())
    ensures request.messages.Some? ==> status == Success(HttpOk)
    ensures request.messages.Some? ==> svc.State() == Batch(old(svc.State()), request.messages.value, env, codec).world
  {
    if request.messages.None? {
      return Failure(ParseError);
    }
    var messages := request.messages.value;
    ghost var start := svc.State();
    for i := 0 to |messages|
      invariant svc.State() == Batch(start, messages[..i], env, codec).world
    {
      assert messages[..i + 1][..i] == messages[..i];
      var outcome := ProcessMessage(svc, messages[i], env(i), codec);
    }
    assert messages[..|messages|] == messages;
    return Success(HttpOk);
  }

  // Properties of one message

  /**
   * A message succeeds exactly when its key is present, the photo is fetched,
   * the crop is produced, and both the write and the insert go through.
   */
  lemma ProcessSucceedsIff(w: World, m: Message, o: Oracle, codec: Codec)
    ensures Process(w, m, o, codec).result.Success? <==>
              && ObjectKeyOf(m).Success?
              && !o.fetchFails
              && ObjectKeyOf(m).value in w.photos
              && CutFace(m.body.value, w.photos[ObjectKeyOf(m).value], codec).Success?
              && !o.putFails
              && !o.insertFails
  {
  }

  /**
   * The success condition with the geometry spelled out: the photo decodes,
   * `face` is present, every point has both coordinates, there are at least
   * two distinct x and two distinct y values, and the crop encodes.
   */
  lemma ProcessSucceedsWhen(w: World, m: Message, o: Oracle, codec: Codec)
    ensures Process(w, m, o, codec).result.Success? <==>
              && ObjectKeyOf(m).Success?
              && !o.fetchFails
              && ObjectKeyOf(m).value in w.photos
              && var photo := w.photos[ObjectKeyOf(m).value];
                 var face := m.body.value.face;
                 && codec.decode(photo).Some?
                 && face.Some?
                 && (forall i :: 0 <= i < |face.value| ==> Complete(face.value[i]))
                 && var c := Coordinates(face.value).value;
                    && |c.xs| >= 2 && |c.ys| >= 2
                    && codec.encode(Crop(codec.decode(photo).value, BoxOf(c).value)).Some?
                    && !o.putFails
                    && !o.insertFails
  {
    ProcessSucceedsIff(w, m, o, codec);
  }

  /**
   * On success the face bucket holds the crop under the face key, the table
   * gained one row `(id, key, face key)`, and nothing else changed; the face
   * key is the photo key without ".jpg" followed by "_0.jpg".
   */
  lemma ProcessSuccessEffects(w: World, m: Message, o: Oracle, codec: Codec)
    requires Process(w, m, o, codec).result.Success?
    ensures ObjectKeyOf(m).Success? && ObjectKeyOf(m).value in w.photos
    ensures FaceKey(ObjectKeyOf(m).value, 0) == RemoveSuffix(ObjectKeyOf(m).value, Jpg) + "_0.jpg"
    ensures var key := ObjectKeyOf(m).value;
            var faceId := FaceKey(key, 0);
            var content := CutFace(m.body.value, w.photos[key], codec);
            var row := Row(o.randomId, key, faceId);
            var r := Process(w, m, o, codec).world;
            && content.Success?
            && r.photos == w.photos
            && r.faces == w.faces[faceId := StoredObject(content.value, OctetStream)]
            && r.photoTable == w.photoTable + [row]
  {
    FirstFaceKey(ObjectKeyOf(m).value);
  }

  /**
   * A failed message adds no row and leaves the photos alone; only a failed
   * insert leaves something behind: the face object already written.
   */
  lemma ProcessFailureEffects(w: World, m: Message, o: Oracle, codec: Codec)
    requires Process(w, m, o, codec).result.Failure?
    ensures var r := Process(w, m, o, codec);
            && r.world.photos == w.photos
            && r.world.photoTable == w.photoTable
            && (r.result.error != DatabaseError ==> r.world.faces == w.faces)
            && (r.result.error == DatabaseError ==>
                  && ObjectKeyOf(m).Success?
                  && ObjectKeyOf(m).value in w.photos
                  && CutFace(m.body.value, w.photos[ObjectKeyOf(m).value], codec).Success?
                  && r.world.faces == w.faces[FaceKey(ObjectKeyOf(m).value, 0) :=
                       StoredObject(CutFace(m.body.value, w.photos[ObjectKeyOf(m).value], codec).value, OctetStream)])
  {
    if ObjectKeyOf(m).Success? {
      var key := ObjectKeyOf(m).value;
      var fetched := FetchObject(w, key, o.fetchFails);
      if fetched.result.Success? {
        var cut := CutFace(m.body.value, fetched.result.value, codec);
        if cut.Success? {
          var put := PutObject(fetched.world, FaceKey(key, 0), cut.value, o.putFails);
          assert put.world.photos == w.photos && put.world.photoTable == w.photoTable;
        }
      }
    }
  }

  /**
   * What any message may change: never the photos, and the table only by one
   * row at its end, exactly when the message succeeds.
   */
  lemma ProcessFrame(w: World, m: Message, o: Oracle, codec: Codec)
    ensures var r := Process(w, m, o, codec);
            && r.world.photos == w.photos
            && w.photoTable <= r.world.photoTable
            && |r.world.photoTable| == |w.photoTable| + (if r.result.Success? then 1 else 0)
  {
    if Process(w, m, o, codec).result.Success? {
      ProcessSuccessEffects(w, m, o, codec);
    } else {
      ProcessFailureEffects(w, m, o, codec);
    }
  }

  /**
   * The calls one message makes, in order: none without a key; otherwise the
   * fetch, then the write only when the crop was produced, then the insert
   * only when the write went through.
   */
  lemma ProcessCalls(w: World, m: Message, o: Oracle, codec: Codec)
    ensures ObjectKeyOf(m).Failure? ==> Process(w, m, o, codec).world == w
    ensures ObjectKeyOf(m).Success? ==>
              var key := ObjectKeyOf(m).value;
              var faceId := FaceKey(key, 0);
              var r := Process(w, m, o, codec);
              && (r.result.Success? || r.result.error == DatabaseError ==>
                    r.world.log == w.log + [Fetch(key)] + [Put(faceId)] + [Insert(PhotoTableName, Row(o.randomId, key, faceId))])
              && (r.result == Failure(StoreError) ==>
                    r.world.log == w.log + [Fetch(key)] + [Put(faceId)])
              && (r.result.Failure? && r.result.error != StoreError && r.result.error != DatabaseError ==>
                    r.world.log == w.log + [Fetch(key)])
  {
    if ObjectKeyOf(m).Success? {
      var key := ObjectKeyOf(m).value;
      var fetched := FetchObject(w, key, o.fetchFails);
      if fetched.result.Success? {
        var cut := CutFace(m.body.value, fetched.result.value, codec);
        if cut.Success? {
          var faceId := FaceKey(key, 0);
          var put := PutObject(fetched.world, faceId, cut.value, o.putFails);
        }
      }
    }
  }

  /** Fewer than two distinct x or y values fail with a geometry error. */
  lemma TooFewValuesFails(w: World, m: Message, o: Oracle, codec: Codec)
    requires ObjectKeyOf(m).Success? && !o.fetchFails && ObjectKeyOf(m).value in w.photos
    requires codec.decode(w.photos[ObjectKeyOf(m).value]).Some?
    requires m.body.value.face.Some? && Coordinates(m.body.value.face.value).Success?
    requires var c := Coordinates(m.body.value.face.value).value; |c.xs| < 2 || |c.ys| < 2
    ensures Process(w, m, o, codec).result == Failure(GeometryError)
  {
  }

  /**
   * A geometry error is raised only for fewer than two distinct x or y
   * values, after the fetch and before any write or insert.
   */
  lemma GeometryErrorStoresNothing(w: World, m: Message, o: Oracle, codec: Codec)
    requires Process(w, m, o, codec).result == Failure(GeometryError)
    ensures ObjectKeyOf(m).Success? && m.body.value.face.Some?
    ensures var c := Coordinates(m.body.value.face.value);
            c.Success? && (|c.value.xs| < 2 || |c.value.ys| < 2)
    ensures Process(w, m, o, codec).world == w.(log := w.log + [Fetch(ObjectKeyOf(m).value)])
  {
  }

  /** The crop always has positive width `right - left` and height `bottom - top`. */
  lemma CropIsNonEmpty(c: Coords, image: Image)
    requires BoxOf(c).Success?
    ensures var b := BoxOf(c).value;
            var cut := Crop(image, b);
            cut.width == b.right - b.left > 0 && cut.height == b.bottom - b.top > 0
  {
  }

  /** Only the set of face points matters: reordering or repeating them changes nothing. */
  lemma FacePointOrderIrrelevant(w: World, key: Option<string>, f1: seq<RawPoint>, f2: seq<RawPoint>, o: Oracle, codec: Codec)
    requires forall p :: p in f1 <==> p in f2
    ensures Process(w, Message(Some(Body(key, Some(f1)))), o, codec) ==
            Process(w, Message(Some(Body(key, Some(f2)))), o, codec)
  {
    SamePointsSameCoordinates(f1, f2);
    if key.Some? && key.value in w.photos {
      var photo := w.photos[key.value];
      assert CutFace(Body(key, Some(f1)), photo, codec) == CutFace(Body(key, Some(f2)), photo, codec);
    }
  }

  // Properties of a batch

  /** The outcomes of the first `k` messages do not depend on the messages after them. */
  lemma {:induction false} BatchPrefix(w: World, ms: seq<Message>, env: nat -> Oracle, codec: Codec, k: nat)
    requires k <= |ms|
    ensures Batch(w, ms[..k], env, codec).outcomes == Batch(w, ms, env, codec).outcomes[..k]
    decreases |ms|
  {
    if k == |ms| {
      assert ms[..k] == ms;
    } else {
      var init := ms[..|ms| - 1];
      BatchPrefix(w, init, env, codec, k);
      assert init[..k] == ms[..k];
    }
  }

  /**
   * Message `k` is processed exactly once, on the services as the earlier
   * messages left them, whatever their outcomes were.
   */
  lemma BatchOutcomeAt(w: World, ms: seq<Message>, env: nat -> Oracle, codec: Codec, k: nat)
    requires k < |ms|
    ensures var before := Batch(w, ms[..k], env, codec).world;
            var step := Process(before, ms[k], env(k), codec);
            && Batch(w, ms, env, codec).outcomes[k] == step.result
            && Batch(w, ms[..k + 1], env, codec).world == step.world
  {
    assert ms[..k + 1][..k] == ms[..k];
    BatchPrefix(w, ms, env, codec, k + 1);
  }

  /** The answers the environment gives from message `n` on. */
  function Shifted(env: nat -> Oracle, n: nat): (e: nat -> Oracle) {
    (k: nat) => env(n + k)
  }

  /** A batch is its first part followed by its second part. */
  lemma {:induction false} BatchAppend(w: World, ms1: seq<Message>, ms2: seq<Message>, env: nat -> Oracle, codec: Codec)
    ensures var first := Batch(w, ms1, env, codec);
            var second := Batch(first.world, ms2, Shifted(env, |ms1|), codec);
            Batch(w, ms1 + ms2, env, codec) == BatchRun(first.outcomes + second.outcomes, second.world)
    decreases |ms2|
  {
    if ms2 == [] {
      assert ms1 + ms2 == ms1;
    } else {
      var init2, last := ms2[..|ms2| - 1], ms2[|ms2| - 1];
      var sh := Shifted(env, |ms1|);
      var first := Batch(w, ms1, env, codec);
      BatchAppend(w, ms1, init2, env, codec);
      assert ms1 + ms2 == (ms1 + init2) + [last];
      assert sh(|init2|) == env(|ms1 + init2|);
      BatchSnoc(w, ms1 + init2, last, env, codec);
      BatchSnoc(first.world, init2, last, sh, codec);
    }
  }

  /** One more message at the end of a batch is processed on the state the batch left. */
  lemma BatchSnoc(w: World, ms: seq<Message>, m: Message, env: nat -> Oracle, codec: Codec)
    ensures var before := Batch(w, ms, env, codec);
            var step := Process(before.world, m, env(|ms|), codec);
            Batch(w, ms + [m], env, codec) == BatchRun(before.outcomes + [step.result], step.world)
  {
    assert (ms + [m])[..|ms|] == ms;
  }

  /** A batch depends on the environment only through the answers for its own messages. */
  lemma {:induction false} BatchEnvAgree(w: World, ms: seq<Message>, e1: nat -> Oracle, e2: nat -> Oracle, codec: Codec)
    requires forall k: nat :: k < |ms| ==> e1(k) == e2(k)
    ensures Batch(w, ms, e1, codec) == Batch(w, ms, e2, codec)
    decreases |ms|
  {
    if ms != [] {
      BatchEnvAgree(w, ms[..|ms| - 1], e1, e2, codec);
    }
  }

  /** The answers the environment gives when message `k` is taken out of the batch. */
  function Skipping(env: nat -> Oracle, k: nat): (e: nat -> Oracle) {
    (i: nat) => if i < k then env(i) else env(i + 1)
  }

  /**
   * A message whose body is not JSON fails with a parse error, and the batch
   * leaves the services exactly as the batch without that message would.
   */
  lemma MalformedMessageIsSkipped(w: World, ms: seq<Message>, env: nat -> Oracle, codec: Codec, k: nat)
    requires k < |ms| && ms[k].body.None?
    ensures Batch(w, ms, env, codec).outcomes[k] == Failure(ParseError)
    ensures Batch(w, ms, env, codec).world == Batch(w, ms[..k] + ms[k + 1..], Skipping(env, k), codec).world
  {
    assert Batch(w, ms, env, codec).outcomes[k] == Failure(ParseError) by {
      BatchOutcomeAt(w, ms, env, codec, k);
    }
    BatchWithMalformed(w, ms, env, codec, k);
    BatchWithoutMalformed(w, ms, env, codec, k);
  }

  /** Processing the batch runs the earlier messages, skips message `k`, then runs the rest. */
  lemma BatchWithMalformed(w: World, ms: seq<Message>, env: nat -> Oracle, codec: Codec, k: nat)
    requires k < |ms| && ms[k].body.None?
    ensures Batch(w, ms, env, codec).world ==
            Batch(Batch(w, ms[..k], env, codec).world, ms[k + 1..], Shifted(Shifted(env, k), 1), codec).world
  {
    var rest := ms[k + 1..];
    var a := Batch(w, ms[..k], env, codec).world;
    var s1 := Shifted(env, k);
    assert ms == ms[..k] + ([ms[k]] + rest);
    calc {
      Batch(w, ms, env, codec).world;
      { BatchAppend(w, ms[..k], [ms[k]] + rest, env, codec); }
      Batch(a, [ms[k]] + rest, s1, codec).world;
      { BatchAppend(a, [ms[k]], rest, s1, codec); }
      Batch(Batch(a, [ms[k]], s1, codec).world, rest, Shifted(s1, 1), codec).world;
      { MalformedLeavesWorld(a, ms[k], s1, codec); }
      Batch(a, rest, Shifted(s1, 1), codec).world;
    }
  }

  /** The batch without message `k` runs the same messages with the same answers. */
  lemma BatchWithoutMalformed(w: World, ms: seq<Message>, env: nat -> Oracle, codec: Codec, k: nat)
    requires k < |ms|
    ensures Batch(w, ms[..k] + ms[k + 1..], Skipping(env, k), codec).world ==
            Batch(Batch(w, ms[..k], env, codec).world, ms[k + 1..], Shifted(Shifted(env, k), 1), codec).world
  {
    var rest := ms[k + 1..];
    var a := Batch(w, ms[..k], env, codec).world;
    var s1 := Shifted(env, k);
    var sk := Skipping(env, k);
    calc {
      Batch(w, ms[..k] + rest, sk, codec).world;
      { BatchAppend(w, ms[..k], rest, sk, codec); }
      Batch(Batch(w, ms[..k], sk, codec).world, rest, Shifted(sk, k), codec).world;
      { BatchEnvAgree(w, ms[..k], sk, env, codec); }
      Batch(a, rest, Shifted(sk, k), codec).world;
      { SkippingAfter(env, k, |rest|);
        BatchEnvAgree(a, rest, Shifted(sk, k), Shifted(s1, 1), codec); }
      Batch(a, rest, Shifted(s1, 1), codec).world;
    }
  }

  lemma MalformedLeavesWorld(w: World, m: Message, env: nat -> Oracle, codec: Codec)
    requires m.body.None?
    ensures Batch(w, [m], env, codec).world == w
  {
    assert [m][..0] == [];
  }

  lemma SkippingAfter(env: nat -> Oracle, k: nat, n: nat)
    ensures forall i: nat :: i < n ==> Shifted(Skipping(env, k), k)(i) == Shifted(Shifted(env, k), 1)(i)
  {
  }

  /** The number of messages in a run that went through. */
  function SuccessCount(outcomes: seq<Result<(), Error>>): (n: nat)
    decreases |outcomes|
  {
    if outcomes == [] then 0
    else SuccessCount(outcomes[..|outcomes| - 1]) + (if outcomes[|outcomes| - 1].Success? then 1 else 0)
  }

  /** A batch never touches the photos, only appends rows, and adds one row per successful message. */
  lemma {:induction false} BatchRows(w: World, ms: seq<Message>, env: nat -> Oracle, codec: Codec)
    ensures var r := Batch(w, ms, env, codec);
            && r.world.photos == w.photos
            && w.photoTable <= r.world.photoTable
            && |r.world.photoTable| == |w.photoTable| + SuccessCount(r.outcomes)
    decreases |ms|
  {
    if ms != [] {
      var init := ms[..|ms| - 1];
      BatchRows(w, init, env, codec);
      var before := Batch(w, init, env, codec);
      var r := Batch(w, ms, env, codec);
      assert r.outcomes[..|r.outcomes| - 1] == before.outcomes;
      if r.outcomes[|r.outcomes| - 1].Success? {
        ProcessSuccessEffects(before.world, ms[|ms| - 1], env(|ms| - 1), codec);
      } else {
        ProcessFailureEffects(before.world, ms[|ms| - 1], env(|ms| - 1), codec);
      }
    }
  }
}
