/** The image store adapter of src/services/r2Service.ts: uploading an image
    to the R2 bucket under a fresh key, reading it back by draining the
    response stream, and building a public URL.

    The bucket itself is `ObjectStore`, an external put/get store. The
    uuid generator, the network's failures and the way the response stream
    is cut into chunks are all outside the service, so they are parameters:
    `uuid` is the id the generator drew, `fault` the error a send threw, and
    a `Delivery` says how a GetObject request was answered. */
module R2Service {
  import opened Js
  import opened Text
  import Base64

  /** The content type used when the caller gives none. */
  const DefaultContentType: string := "image/jpeg"
  const UploadFailurePrefix: string := "Failed to upload image to R2: "
  const ReadFailurePrefix: string := "Failed to get image from R2: "
  const NoDataMessage: string := "No image data found"

  /** An object in the bucket: its bytes and the content type it was put with. */
  datatype StoredObject = StoredObject(body: seq<byte>, contentType: string)

  /** How the network answered one GetObject request: the object's bytes
      arrive as a stream cut at the given chunk sizes; or the response has
      no body; or the send threw. */
  datatype Delivery = Stream(sizes: seq<nat>) | NoBody | Fault(error: JsError)

  /** The part of a GetObject response the service reads: its body stream. */
  datatype GetOutput = GetOutput(body: Option<seq<seq<byte>>>)

  /** What the outcome of one upload is: the result returned to the caller
      and the bucket contents afterwards. */
  datatype UploadEffect = UploadEffect(result: Result<string, JsError>, objects: map<string, StoredObject>)

  // ---------------------------------------------------------------------
  // The external store

  /** `Buffer.concat(chunks)`. */
  function Flatten(chunks: seq<seq<byte>>): seq<byte>
  {
    if chunks == [] then [] else chunks[0] + Flatten(chunks[1..])
  }

  /** The stream of a body cut at the given sizes (a size past the end
      takes what is left; bytes left after the last size form one more chunk). */
  function Chunks(b: seq<byte>, sizes: seq<nat>): seq<seq<byte>>
    decreases |sizes|
  {
    if sizes == [] then (if b == [] then [] else [b])
    else
      var n := if sizes[0] <= |b| then sizes[0] else |b|;
      [b[..n]] + Chunks(b[n..], sizes[1..])
  }

  /** However the stream is cut, concatenating its chunks in order gives
      back the body. */
  lemma {:induction false} FlattenChunks(b: seq<byte>, sizes: seq<nat>)
    ensures Flatten(Chunks(b, sizes)) == b
    decreases |sizes|
  {
    if sizes == [] {
      if b != [] {
        assert Flatten([b]) == b + Flatten([]);
      }
    } else {
      var n := if sizes[0] <= |b| then sizes[0] else |b|;
      var cs := Chunks(b, sizes);
      assert cs[0] == b[..n];
      assert cs[1..] == Chunks(b[n..], sizes[1..]);
      FlattenChunks(b[n..], sizes[1..]);
      assert b == b[..n] + b[n..];
    }
  }

  /** The error the S3 client throws for a key the bucket does not hold. */
  function NoSuchKey(): JsError
  {
    JsError("NoSuchKey", "The specified key does not exist.", None)
  }

  /** How the bucket answers GetObject for `key` under a given delivery. */
  function Answer(objects: map<string, StoredObject>, key: string, delivery: Delivery): Result<GetOutput, JsError>
  {
    match delivery
    case Fault(e) => Err(e)
    case NoBody => if key in objects then Ok(GetOutput(None)) else Err(NoSuchKey())
    case Stream(sizes) =>
      if key in objects then Ok(GetOutput(Some(Chunks(objects[key].body, sizes)))) else Err(NoSuchKey())
  }

  /** The R2 bucket, reached through the S3 client. `requests` counts the
      commands sent to it. */
  class ObjectStore {
    var objects: map<string, StoredObject>
    ghost var requests: nat

    constructor ()
      ensures objects == map[] && requests == 0
    {
      objects := map[];
      requests := 0;
    }

    /** Sends a PutObject command; `fault` is the error the send throws, if
        any. A put under a key already present replaces that object. */
    method Put(key: string, body: seq<byte>, contentType: string, fault: Option<JsError>)
      returns (thrown: Option<JsError>)
      modifies this
      ensures requests == old(requests) + 1
      ensures thrown == fault
      ensures objects == if fault.None? then old(objects)[key := StoredObject(body, contentType)] else old(objects)
    {
      requests := requests + 1;
      thrown := fault;
      if fault.None? {
        objects := objects[key := StoredObject(body, contentType)];
      }
    }

    /** Sends a GetObject command. */
    method Get(key: string, delivery: Delivery) returns (r: Result<GetOutput, JsError>)
      modifies this
      ensures requests == old(requests) + 1
      ensures objects == old(objects)
      ensures r == Answer(objects, key, delivery)
    {
      requests := requests + 1;
      r := Answer(objects, key, delivery);
    }
  }

  // ---------------------------------------------------------------------
  // uploadImage

  /** The base64 text of a string payload: when the string contains a
      comma (a data URL such as "data:image/png;base64,...") it is
      `split(",")[1]`, the piece after the first comma; otherwise the whole
      string. */
  function Base64Text(s: string): string
  {
    if ',' in s then
      Text.SplitPieces(s, ',');
      Split(s, ',')[1]
    else s
  }

  /** The bytes an upload writes: a string is base64-decoded after the
      data-URL prefix is removed, a Buffer is written as it is. */
  function Normalize(imageData: ImageData): seq<byte>
  {
    match imageData
    case StringImage(s) => Base64.Decode(Base64Text(s))
    case BufferImage(b) => b
  }

  /** The content type argument, `"image/jpeg"` when it is left out. */
  function ContentTypeOf(contentType: Option<string>): string
  {
    contentType.GetOr(DefaultContentType)
  }

  /** `new Error(`Failed to upload image to R2: ${error}`)`. */
  function UploadFailure(e: JsError): JsError
  {
    PlainError(UploadFailurePrefix + e.ToString())
  }

  /** What `uploadImage(imageData, contentType)` does to a bucket holding
      `objects`, when the generator draws `uuid` and the send throws `fault`. */
  function Upload(objects: map<string, StoredObject>, imageData: ImageData, contentType: Option<string>,
                  uuid: string, fault: Option<JsError>): UploadEffect
  {
    match fault
    case Some(e) => UploadEffect(Err(UploadFailure(e)), objects)
    case None => UploadEffect(Ok(uuid), objects[uuid := StoredObject(Normalize(imageData), ContentTypeOf(contentType))])
  }

  /** `uploadImage`: builds the bytes across the two branches, puts them
      under the drawn id and returns the id, wrapping any failure. */
  method UploadImage(store: ObjectStore, imageData: ImageData, contentType: Option<string>,
                     uuid: string, fault: Option<JsError>) returns (r: Result<string, JsError>)
    modifies store
    ensures store.requests == old(store.requests) + 1
    ensures UploadEffect(r, store.objects) == Upload(old(store.objects), imageData, contentType, uuid, fault)
  {
    var imageId := uuid;
    var buffer: seq<byte>;
    if imageData.StringImage? {
      var base64Data := Base64Text(imageData.text);
      buffer := Base64.Decode(base64Data);
    } else {
      buffer := imageData.bytes;
    }
    var thrown := store.Put(imageId, buffer, ContentTypeOf(contentType), fault);
    if thrown.Some? {
      return Err(UploadFailure(thrown.value));
    }
    return Ok(imageId);
  }

  /** A successful upload returns exactly the key it wrote, the object
      under that key holds the normalised bytes and the content type given
      (or the default), and every other key is untouched. A failed upload
      changes nothing and says so with the fixed prefix. */
  lemma UploadWritesReturnedKey(objects: map<string, StoredObject>, imageData: ImageData,
                                contentType: Option<string>, uuid: string, fault: Option<JsError>)
    ensures var u := Upload(objects, imageData, contentType, uuid, fault);
      && (u.result.Ok? <==> fault.None?)
      && (u.result.Ok? ==>
            && u.result.value == uuid
            && u.objects.Keys == objects.Keys + {uuid}
            && u.objects[uuid].body == Normalize(imageData)
            && u.objects[uuid].contentType == (if contentType.Some? then contentType.value else "image/jpeg")
            && forall k :: k in objects && k != uuid ==> u.objects[k] == objects[k])
      && (u.result.Err? ==> u.objects == objects && UploadFailurePrefix <= u.result.error.message)
  {
  }

  /** A Buffer is uploaded byte for byte. */
  lemma BinaryUploadedUnchanged(objects: map<string, StoredObject>, b: seq<byte>, contentType: Option<string>, uuid: string)
    ensures Upload(objects, BufferImage(b), contentType, uuid, None).objects[uuid].body == b
  {
  }

  /** A string without a comma is decoded whole. */
  lemma NoCommaDecodedWhole(s: string)
    requires ',' !in s
    ensures Base64Text(s) == s
  {
  }

  /** The piece between the first comma and the next one (or the end) is
      what is decoded. */
  lemma {:induction false} Base64TextAfterFirstComma(prefix: string, data: string, rest: string)
    requires ',' !in prefix && ',' !in data
    requires rest == [] || rest[0] == ','
    ensures Base64Text(prefix + [','] + data + rest) == data
  {
    var s := prefix + [','] + data + rest;
    assert s[|prefix|] == ',';
    assert s == prefix + [','] + (data + rest);
    Text.SplitAfterFirst(prefix, ',', data + rest);
    Text.SplitFirstPiece(data, ',', rest);
  }

  /** A data URL carrying the canonical encoding of some bytes uploads
      those bytes, and the content type stored is the argument or the
      default, whatever media type the URL names. */
  lemma {:induction false} DataUrlUpload(mediaType: string, b: seq<byte>, contentType: Option<string>,
                                         objects: map<string, StoredObject>, uuid: string)
    requires ',' !in mediaType
    ensures var url := "data:" + mediaType + ";base64," + Base64.Encode(b);
      var u := Upload(objects, StringImage(url), contentType, uuid, None);
      u.objects[uuid] == StoredObject(b, ContentTypeOf(contentType))
  {
    var prefix := "data:" + mediaType + ";base64";
    var data := Base64.Encode(b);
    Base64.EncodeAlphabet(b);
    assert ',' !in data by {
      forall i | 0 <= i < |data| ensures data[i] != ',' { }
    }
    assert ',' !in prefix by {
      forall i | 0 <= i < |prefix| ensures prefix[i] != ',' {
        if i >= 5 && i < 5 + |mediaType| {
          assert prefix[i] == mediaType[i - 5];
        }
      }
    }
    assert "data:" + mediaType + ";base64," + data == prefix + [','] + data + [];
    Base64TextAfterFirstComma(prefix, data, []);
    Base64.DecodeEncode(b);
  }

  /** The content type written never depends on the image: two uploads
      with the same argument store the same type. */
  lemma ContentTypeIgnoresPayload(objects: map<string, StoredObject>, d1: ImageData, d2: ImageData,
                                  contentType: Option<string>, uuid: string)
    ensures Upload(objects, d1, contentType, uuid, None).objects[uuid].contentType
         == Upload(objects, d2, contentType, uuid, None).objects[uuid].contentType
  {
  }

  // ---------------------------------------------------------------------
  // getImage

  /** `new Error(`Failed to get image from R2: ${error.message || error}`)`. */
  function ReadFailure(e: JsError): JsError
  {
    PlainError(ReadFailurePrefix + (if e.message != "" then e.message else e.ToString()))
  }

  /** What `getImage(key)` returns from a bucket holding `objects` under a
      given delivery. */
  function FetchImage(objects: map<string, StoredObject>, key: string, delivery: Delivery): Result<seq<byte>, JsError>
  {
    match Answer(objects, key, delivery)
    case Err(e) => Err(ReadFailure(e))
    case Ok(output) =>
      if output.body.None? then Err(ReadFailure(PlainError(NoDataMessage)))
      else Ok(objects[key].body)
  }

  /** `getImage`: sends the command, collects the stream's chunks in order
      and concatenates them, wrapping any failure. */
  method GetImage(store: ObjectStore, imageId: string, delivery: Delivery) returns (r: Result<seq<byte>, JsError>)
    modifies store
    ensures store.objects == old(store.objects)
    ensures store.requests == old(store.requests) + 1
    ensures r == FetchImage(store.objects, imageId, delivery)
  {
    var response := store.Get(imageId, delivery);
    if response.Err? {
      return Err(ReadFailure(response.error));
    }
    if response.value.body.None? {
      return Err(ReadFailure(PlainError(NoDataMessage)));
    }
    var stream := response.value.body.value;
    var chunks: seq<seq<byte>> := [];
    for i := 0 to |stream|
      invariant chunks == stream[..i]
    {
      chunks := chunks + [stream[i]];
    }
    assert chunks == stream;
    FlattenChunks(store.objects[imageId].body, delivery.sizes);
    return Ok(Flatten(chunks));
  }

  /** Every failure of `getImage` carries the fixed prefix, and it fails
      exactly when the send throws, the key is absent or the body is missing. */
  lemma FetchFailures(objects: map<string, StoredObject>, key: string, delivery: Delivery)
    ensures FetchImage(objects, key, delivery).Err? <==> (delivery.Fault? || key !in objects || delivery.NoBody?)
    ensures FetchImage(objects, key, delivery).Err? ==> ReadFailurePrefix <= FetchImage(objects, key, delivery).error.message
  {
  }

  /** Uploading and then reading back the returned key, with the body
      streamed in any chunks, gives exactly the uploaded bytes. */
  lemma RetrievalRoundTrip(objects: map<string, StoredObject>, imageData: ImageData, contentType: Option<string>,
                           uuid: string, sizes: seq<nat>)
    ensures var u := Upload(objects, imageData, contentType, uuid, None);
      u.result.Ok? && FetchImage(u.objects, u.result.value, Stream(sizes)) == Ok(Normalize(imageData))
  {
  }

  // ---------------------------------------------------------------------
  // getImageUrl

  /** `getImageUrl(imageId)` when the R2_PUBLIC_URL setting is `publicUrl`. */
  function GetImageUrl(imageId: string, publicUrl: Option<string>): string
  {
    if Truthy(publicUrl) then publicUrl.value + "/" + imageId else ""
  }

  /** With a public URL configured, the URL is that base, a slash and the
      key, so distinct keys give distinct URLs; without one it is empty. */
  lemma ImageUrlNamesKey(a: string, b: string, publicUrl: Option<string>)
    ensures Truthy(publicUrl) ==> publicUrl.value + "/" <= GetImageUrl(a, publicUrl)
    ensures Truthy(publicUrl) ==> GetImageUrl(a, publicUrl)[|publicUrl.value| + 1..] == a
    ensures Truthy(publicUrl) && GetImageUrl(a, publicUrl) == GetImageUrl(b, publicUrl) ==> a == b
    ensures !Truthy(publicUrl) ==> GetImageUrl(a, publicUrl) == ""
  {
    if Truthy(publicUrl) {
      var u := GetImageUrl(a, publicUrl);
      assert u[|publicUrl.value| + 1..] == a;
      assert GetImageUrl(b, publicUrl)[|publicUrl.value| + 1..] == b;
    }
  }
}
