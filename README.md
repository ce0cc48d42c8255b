# FaceCut worker, modelled in Dafny

The model covers the face-cutting step of a photo service. A webhook
receives a batch of event messages. Each message names a photo in the photo
bucket (`object_key`) and lists the points of one detected face (`face`).
For each message the worker does five things. It fetches the photo and
derives a box from the face points. It crops the photo to that box and
writes the crop, as JPEG, to the face bucket under a derived key. Last, it
inserts a row `(id, original_id, face_id)` into the `photo` table. The batch
handler tries every message once, in order, and drops any message that
raises.

Modules, one per concern of `container/FaceCut.py`:

- `Wrappers`, `Errors` (wrappers.dfy): `Option`, `Result`, and the kinds of
  exception one message can raise.
- `Geometry` (geometry.dfy): raw face points, and the loop that collects the
  distinct x and y values into sets. Also `sorted` of a set, and the box
  `(sorted_x[0], sorted_y[0], sorted_x[1], sorted_y[1])`.
- `FaceKeys` (keys.dfy): `str.removesuffix`, decimal formatting of the face
  counter, and the face key `<key without .jpg>_<n>.jpg`.
- `Images` (images.dfy): decoded images as rows of pixels, and `Image.crop`
  with half-open bounds. Pixels outside the source are zero fill.
- `Cloud` (cloud.dfy): the photo and face buckets as maps and the `photo`
  table as a sequence of rows. The `Services` class holds them and offers
  `GetImage`, `PutImage` and `AddImageInfoToDb`. An effect log records every
  call, successful or not, so that the order of calls can be stated.
- `FaceCut` (facecut.dfy): `Process`, the meaning of `process_message` as a
  function on the services' state. `ProcessMessage` is the step-by-step
  method and is proved equal to `Process`. `Batch` is the meaning of the
  handler loop, and `Hello` is the handler method, proved equal to `Batch`.

Each message gets an `Oracle` from the outside world. It says whether the
fetch, the write and the insert fail, and gives the 64 random bits drawn for
the row id (type `u64`, so every id lies in `[0, 2^64)`). In a batch,
message `k` gets `env(k)`. The image library is a `Codec` value: `decode`
stands for `Image.open` and `encode` for saving as JPEG. Neither is
interpreted.

Behaviour of the code that is easy to misread, and that the model keeps:

- `hello` reads `request.json['messages']` outside the `try`. A request
  without `messages` raises, so no 200 reply is sent. `Hello` returns
  `Failure(ParseError)` there and `Success(200)` whenever the list is present,
  even if every message fails.
- `object_key` is read before the fetch, but `face` is read only after the
  photo has been fetched and decoded (lines 108-109). A message without
  `face` therefore still makes the fetch call.
- The box takes the two smallest distinct values per axis, which are not
  in general the minimum and the maximum. With exactly two distinct values, the corners of a rectangle,
  the two agree (`TwoValuesGiveTheSpan`). A third value is ignored
  (`ThirdValueIgnored`).
- The face counter is 0 whenever the key is built. It is incremented only
  after the write (line 127), so every face key ends in `_0.jpg`.
- Keys `"a.jpg"` and `"a"` give the same face key (`FaceKeyCollision`), so
  the later message's write replaces the earlier one's crop.

## Model

| member | source | states |
|---|---|---|
| `Geometry.Coordinates` | container/FaceCut.py:111-115 | the collecting loop completes exactly when every face point has both `x` and `y`; otherwise it raises a KeyError (`ParseError`) |
| `Geometry.CoordinatesAreThePointValues` | container/FaceCut.py:111-115 | the sets `x` and `y` hold exactly the x values and the y values that occur among the points |
| `Geometry.CollectCoordinates` | container/FaceCut.py:111-115 | the `for` loop over the points with `x.add`/`y.add` computes `Coordinates(face)`, error case included |
| `Geometry.SortedSet` | container/FaceCut.py:116-117 | `sorted` of a set is strictly ascending and holds exactly the set's elements, each once |
| `Geometry.FirstTwoOfSorted` | container/FaceCut.py:116-121 | elements 0 and 1 of the sorted list are the least element and the least of the others |
| `Geometry.BoxOf` | container/FaceCut.py:116-121 | the box exists exactly when there are at least two distinct x and two distinct y values; otherwise indexing raises (`GeometryError`); `left`/`right` are the two smallest x, `top`/`bottom` the two smallest y, so `left < right` and `top < bottom` |
| `Geometry.TwoSmallestUnique` | container/FaceCut.py:118-121 | the two smallest values are determined by the set, so the box is a function of the coordinate sets |
| `Geometry.SamePointsSameCoordinates` | container/FaceCut.py:111-117 | reordering or repeating face points changes neither the outcome of the loop nor the sets |
| `Geometry.TwoValuesGiveTheSpan` | container/FaceCut.py:116-121 | with exactly two distinct values per axis the box spans every point |
| `Geometry.ThirdValueIgnored` | container/FaceCut.py:116-121 | x values {0, 10, 30} and y values {0, 20} give box (0, 0, 10, 20): the third x value is ignored |
| `FaceKeys.RemoveSuffix` | container/FaceCut.py:122 | `removesuffix('.jpg')` yields a prefix of the key, drops the suffix once when the key ends with it, and otherwise returns the key unchanged |
| `FaceKeys.RemoveSuffixOfAppended` | container/FaceCut.py:122 | removing a non-empty suffix undoes appending it, exactly once |
| `FaceKeys.DecimalString` | container/FaceCut.py:122 | the f-string text of the counter is a non-empty run of digits that starts with `0` only for the number 0 |
| `FaceKeys.DecimalRoundTrip` | container/FaceCut.py:122 | reading the decimal text back gives the counter |
| `FaceKeys.FaceKey` | container/FaceCut.py:122 | the face key starts with the photo key stripped of one trailing `.jpg`, has `_` right after it, ends with `.jpg`, and is exactly as long as those parts and the counter's digits |
| `FaceKeys.FirstFaceKey` | container/FaceCut.py:110-122 | with the counter at 0 the face key is the stripped key followed by `_0.jpg`, and it ends with `.jpg` |
| `FaceKeys.FaceKeyInjective` | container/FaceCut.py:122 | two face keys are equal if and only if the stripped photo keys and the counters are equal |
| `FaceKeys.StrippedKeyExample` | container/FaceCut.py:122 | `photo1.jpg` gives `photo1_0.jpg` |
| `FaceKeys.PlainKeyExample` | container/FaceCut.py:122 | `photo1` (no `.jpg`) gives `photo1_0.jpg` |
| `FaceKeys.DoubleSuffixExample` | container/FaceCut.py:122 | `a.jpg.jpg` gives `a.jpg_0.jpg`: only one suffix is removed |
| `FaceKeys.FaceKeyCollision` | container/FaceCut.py:122 | the different photo keys `a.jpg` and `a` share the face key |
| `Images.Crop` | container/FaceCut.py:123 | the crop is `right - left` wide and `bottom - top` high, and its pixel `(i, j)` is the source pixel `(left + i, top + j)` (zero outside the source) |
| `Images.CropWholeImage` | container/FaceCut.py:123 | cropping to `(0, 0, width, height)` returns the image unchanged |
| `Images.CropOfCrop` | container/FaceCut.py:123 | a crop of a crop, within its bounds, equals one crop of the source with the offsets added |
| `Images.CropExample` | container/FaceCut.py:123 | box (10, 5, 50, 60) gives a 40 by 55 image |
| `Cloud.FetchObject` | container/FaceCut.py:69-79 | `get_object` records a fetch call and changes nothing else; it succeeds exactly when the object exists and the call does not fail, giving the object's bytes, else `FetchError` |
| `Cloud.PutObject` | container/FaceCut.py:82-93 | `put_object` records a write call; it succeeds exactly when the call does not fail, and then the face bucket maps the key to the content with type `application/octet-stream`; on failure (`StoreError`) the bucket is unchanged; photos and table are never touched |
| `Cloud.InsertRow` | container/FaceCut.py:56-66 | the INSERT records its call; it succeeds exactly when the transaction does not fail, and then the row is appended to the table; on failure (`DatabaseError`) the table is unchanged; the buckets are never touched |
| `Cloud.Services.GetImage` | container/FaceCut.py:69-79 | records a fetch call; returns the photo's bytes exactly when the object exists and the call does not fail, else `FetchError`; changes no bucket or table |
| `Cloud.Services.PutImage` | container/FaceCut.py:82-93 | records a write call; on success the face bucket maps the key to the bytes with content type `application/octet-stream`; on failure nothing but the log changes |
| `Cloud.Services.AddImageInfoToDb` | container/FaceCut.py:56-66 | records an insert into `photo`; on success the table gains exactly the row `(id, original_id, face_id)` at its end, on failure (`DatabaseError`) it is unchanged |
| `FaceCut.ObjectKeyOf` | container/FaceCut.py:107-108 | the key is available exactly when the body parses and has `object_key`; otherwise `ParseError` |
| `FaceCut.CutFace` | container/FaceCut.py:108-125 | an undecodable photo raises `DecodeError` before anything else, a missing `face` then raises `ParseError`; a crop is produced only when the points give coordinate sets and a box; every failure is one of decode, parse, geometry or encode errors |
| `FaceCut.Process` | container/FaceCut.py:106-128 | `process_message` as a function of the services' state and the outside answers: key, fetch, crop, write, insert, in that order, the first failure stopping the rest; what it promises is stated by the `Process…` lemmas below |
| `FaceCut.ProcessMessage` | container/FaceCut.py:106-128 | the method's effects and outcome are those of `Process`: with the counter at 0 it fetches, collects, derives the box, builds the key, crops, encodes, writes, then inserts |
| `FaceCut.ProcessSucceedsIff` | container/FaceCut.py:106-128 | a message completes if and only if its key is present, the photo is fetched, the crop is produced, and both the write and the insert succeed |
| `FaceCut.ProcessSucceedsWhen` | container/FaceCut.py:106-128 | a message completes if and only if its key is present, the fetch succeeds, the photo decodes, `face` is present, every point has `x` and `y`, there are at least two distinct x and two distinct y values, the crop encodes, and both the write and the insert succeed |
| `FaceCut.ProcessFrame` | container/FaceCut.py:106-128 | no message changes the photos; the table only grows at its end, by one row exactly when the message succeeds |
| `FaceCut.ProcessSuccessEffects` | container/FaceCut.py:122-128 | on success exactly one face object (the encoded crop) is stored under `<key without .jpg>_0.jpg` and exactly one row `(id, object_key, face key)` is appended; the photos are untouched |
| `FaceCut.ProcessFailureEffects` | container/FaceCut.py:126-128 | a failed message adds no row and leaves the photos alone; the face bucket is unchanged unless the insert failed, in which case it is the old bucket with the encoded crop just written stored under the face key |
| `FaceCut.ProcessCalls` | container/FaceCut.py:108-128 | without a key no call is made; otherwise the calls are fetch, then write only once the crop exists, then insert only once the write succeeded |
| `FaceCut.TooFewValuesFails` | container/FaceCut.py:116-121 | once the photo is decoded and the points are complete, fewer than two distinct x or y values raise a geometry error |
| `FaceCut.GeometryErrorStoresNothing` | container/FaceCut.py:116-128 | a geometry error means fewer than two distinct x or y values, and it happens after the fetch with no write and no insert |
| `FaceCut.CropIsNonEmpty` | container/FaceCut.py:118-123 | the crop of a derived box has positive width `right - left` and positive height `bottom - top` |
| `FaceCut.FacePointOrderIrrelevant` | container/FaceCut.py:111-117 | two messages whose face points form the same set have the same effect and outcome |
| `FaceCut.Batch` | container/FaceCut.py:41-45 | the loop yields one outcome per message |
| `FaceCut.Hello` | container/FaceCut.py:37-47 | with a `messages` list the handler answers 200 whatever the messages' outcomes, and leaves the services as `Batch` says; without one it raises and changes nothing |
| `FaceCut.BatchPrefix` | container/FaceCut.py:41-45 | the outcomes of the first `k` messages do not depend on later messages |
| `FaceCut.BatchOutcomeAt` | container/FaceCut.py:41-45 | message `k` is processed exactly once, on the state the earlier messages left, whether or not they failed |
| `FaceCut.BatchSnoc` | container/FaceCut.py:41-45 | one more message at the end of a batch is processed on the state the batch left, and its outcome is appended |
| `FaceCut.BatchAppend` | container/FaceCut.py:41-45 | a batch is its first part followed by its second part |
| `FaceCut.BatchEnvAgree` | container/FaceCut.py:41-45 | a batch depends on the outside answers only for its own messages |
| `FaceCut.MalformedMessageIsSkipped` | container/FaceCut.py:41-45 | a message whose body does not parse fails with a parse error, and the batch leaves the services as the batch without it would |
| `FaceCut.BatchRows` | container/FaceCut.py:41-45 | a batch never changes the photos, only appends to the table, and adds exactly one row per successful message |

## Left out

- Sanic plumbing: the app, the route decorator, the start and stop hooks, `print` logging and `app.run` (lines 16-53 and 131-132). The logging of caught exceptions is part of this.
- Configuration from environment variables, and the YDB driver, its credentials and its session lifecycle (lines 25-34, 64-66 and 96-103). The two bucket names are taken to name different buckets.
- boto3 clients (lines 69-93). They are modelled as map reads and writes that can fail through the oracle's flags.
- JSON decoding of the message body (line 107). A message is an already-decoded record, and a missing or malformed part is `None`. Values of the wrong JSON type are not modelled.
- PIL decoding and JPEG encoding (lines 108 and 124-125). They are the opaque `Codec` functions. `Image.open` decodes lazily, so a decode error could surface at the crop or the save. The model raises it at decode time, and no effect happens in between. The lossy JPEG round trip is not modelled.
- `int()` applied to coordinates (lines 114-115). Fractional JSON numbers are floating point, which is not modelled. Raw points carry integers, so `int()` is the identity on them.
- `random.getrandbits(64)` (line 61). The value is the oracle's `randomId`. Id collisions and primary-key conflicts are not modelled, since the source does not handle them.
- Cloud.Services.AddImageInfoToDb: the SQL text at lines 58-62 pastes `original_id` and `face_id` between single quotes without escaping. A key containing a quote, a backslash or crafted SQL can make the query fail, or can make it insert a different row or run other statements. The model always stores `Row(id, key, face key)` as given, and its only failure is the oracle's `insertFails`. Interpreting SQL text is out of scope.
- Images.Crop: never fails. Pillow's `image.crop` at line 123 can raise on its own: it runs its decompression-bomb check on the crop size, and coordinates that do not fit a C int overflow. The model has no such error. A failure between the box and the write can come only from `codec.encode` and is labelled `EncodeError`.
- Concurrency. There is none in the source: the loop is sequential.

