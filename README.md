# box-manager-api: a Dafny model of the box and image paths

This project models the core of a small Fastify/TypeScript HTTP service.
The service stores "boxes" in a MongoDB collection. Each box holds named
items, and each item holds images. It also reads images back from a
Cloudflare R2 bucket. The model covers four things:

- `POST /boxes` (`createBox`). The handler validates the box and each item
  and fails fast. It decodes every string image from base64, and a Buffer
  image passes through. It saves the record under a unique `id` and answers
  201 with the saved box, its images re-encoded as base64. A duplicate id is
  answered 409 and any other error 500.
- The R2 adapter (`uploadImage`, `getImage`, `getImageUrl`). `uploadImage`
  strips a data-URL prefix (RFC 2397) by taking the piece after the first
  comma. It decodes, puts the bytes under a freshly drawn key with the
  caller's content type (default `image/jpeg`) and returns that key.
  `getImage` drains the response stream into one buffer. `getImageUrl`
  builds a public URL. Every failure is re-thrown with a fixed message
  prefix.
- `GET /images/:imageId` (`getImageById`). A missing id is answered 400.
  A success is answered with the bytes, type `image/jpeg` and a matching
  Content-Length. An error whose message includes "Failed to get image" is
  answered 404, and any other error 500.
- The `Box` collection. Its required fields and its unique `id` are
  modelled as a store keyed by id whose insert rejects duplicates.

Modules, one per source file plus shared pieces:

| file | module | models |
|---|---|---|
| js.dfy | `Js` | JavaScript values used throughout: optional fields, thrown errors and `Error.prototype.toString`, truthiness, the `string \| Buffer` union |
| text.dfy | `Text` | `split(",")`, `includes`, `Number.prototype.toString` |
| base64.dfy | `Base64` | `buf.toString("base64")` (RFC 4648 section 4) and Node's lenient `Buffer.from(s, "base64")` |
| http.dfy | `Http` | the Fastify reply object: `code`, `type`, `header`, `send` |
| r2_service.dfy | `R2Service` | src/services/r2Service.ts, with the bucket as `ObjectStore` |
| image_controller.dfy | `ImageController` | src/controllers/imageController.ts |
| box_model.dfy | `BoxModel` | src/models/Box.ts, with the collection as `BoxStore` |
| box_controller.dfy | `BoxController` | src/controllers/boxController.ts |

The external collaborators enter as parameters:

- The uuid generator's draw is the `uuid` argument of `UploadImage`.
- A failed send or database call is a `fault` argument.
- The way R2 answers a GetObject is a `Delivery`. The body either streams
  in chunks of the given sizes, or is missing, or the send throws.
- The `R2_PUBLIC_URL` setting is an argument of `GetImageUrl`.

The stateful parts are classes whose methods are proved against pure
specification functions:

- `ObjectStore`, `BoxStore` and `Reply` are the classes.
- `Upload`, `FetchImage`, `ImageResponse`, `Prepare`, `CreateBoxResponse`
  and `StoreAfter` are the specification functions.
- The lemmas state the source's promises about those functions.

Behaviours of the code worth noting:

- `createBox` does not call `uploadImage`. It stores the decoded bytes
  themselves in the box record and echoes them back as base64.
- `createBox` decodes a string image whole. Only `uploadImage` strips a
  data-URL prefix.
- The content type stored by `uploadImage` is its argument or
  `image/jpeg`. It is never taken from a data URL.
- Base64 decoding never fails. Malformed input decodes leniently.
- Every `getImage` failure, a missing key included, is answered 404. The
  controller matches on the "Failed to get image" prefix that `getImage`
  puts on every error.
- The item field is `image` and holds an array.
- An image that decodes to no bytes (the string `""`, say) passes the
  handler's own checks but fails the schema's per-element `required` on
  `image`. The resulting validation error has no code, so it is answered
  500.

## Model

| member | source | states |
|---|---|---|
| `Text.JoinSplit` | src/services/r2Service.ts:34-35 | joining the pieces of `split(",")` with commas gives back the string |
| `Text.Split` | src/services/r2Service.ts:35 | `split(sep)` always yields at least one piece; its other properties are the lemmas below |
| `Text.SplitPieces` | src/services/r2Service.ts:34-35 | no piece of `split` contains the separator; there are at least two pieces exactly when the string includes it, so `split(",")[1]` exists under the `includes(",")` guard |
| `Text.SplitAfterFirst` | src/services/r2Service.ts:35 | a comma-free run ended by a comma is the first piece, followed by the pieces of the rest |
| `Text.SplitFirstPiece` | src/services/r2Service.ts:35 | a comma-free run followed by the end or a comma is the first piece |
| `Text.PrefixIsContained` | src/controllers/imageController.ts:27 | `includes` finds any prefix of a prefix of the string |
| `Text.Contains` | src/controllers/imageController.ts:27 | `includes(sub)`: `sub` is a prefix of the string or of some suffix of it; the two lemmas below tie it to an occurrence at a position |
| `Text.OccurrenceIsContained` | src/controllers/imageController.ts:27 | an occurrence of `sub` at any position makes `includes(sub)` true |
| `Text.ContainedOccurs` | src/controllers/imageController.ts:27 | when `includes(sub)` is true, `sub` occurs at the returned position |
| `Text.Decimal` | src/controllers/imageController.ts:22 | `length.toString()` is a non-empty string of decimal digits |
| `Text.DecimalRoundTrip` | src/controllers/imageController.ts:22 | the decimal text reads back as the length it was made from |
| `Base64.Symbols` | src/controllers/boxController.ts:60 | each sextet becomes the RFC 4648 symbol for its value, position by position |
| `Base64.SymbolValue` | src/controllers/boxController.ts:36 | the decoder reads each emitted symbol as its own value, and no symbol is the pad character |
| `Base64.Symbol` | src/controllers/boxController.ts:60 | the symbol of a six-bit value in the alphabet of Table 1 of RFC 4648; characterised by `SymbolValue` |
| `Base64.ValueOf` | src/controllers/boxController.ts:36 | the decoder's table: standard and URL-safe symbols, anything else skipped; characterised by `SymbolValue` |
| `Base64.ToSextets` | src/controllers/boxController.ts:60 | the six-bit cut of the bytes, most significant bits first; characterised by `FromToSextets` and `SymbolCount` |
| `Base64.Padding` | src/controllers/boxController.ts:60 | the `=` padding that completes the last group; characterised by `EncodeLength` |
| `Base64.Sextets` | src/controllers/boxController.ts:36 | the values the decoder reads, up to the first `=`; characterised by `SextetsOfSymbols` |
| `Base64.FromSextets` | src/controllers/boxController.ts:36 | groups of four values (or a trailing three or two) as bytes; characterised by `FromToSextets` |
| `Base64.FromToSextets` | src/controllers/boxController.ts:36-60 | regrouping the six-bit cut of any bytes gives back those bytes |
| `Base64.SextetsOfSymbols` | src/controllers/boxController.ts:36 | the decoder reads back exactly the emitted symbols and stops at the padding |
| `Base64.DecodeEncode` | src/controllers/boxController.ts:36-60 | `Buffer.from(buf.toString("base64"), "base64")` equals `buf` for every buffer |
| `Base64.CanonicalEcho` | src/controllers/boxController.ts:36-60 | a canonical base64 string (one the encoder produces) is reproduced by decoding and re-encoding it |
| `Base64.EncodeLength` | src/controllers/boxController.ts:60 | the encoding has 4 * ceil(n / 3) characters |
| `Base64.EncodeAlphabet` | src/controllers/boxController.ts:60 | every character of an encoding is `=` or a symbol of the standard alphabet, never a URL-safe one |
| `Base64.Encode` | src/controllers/boxController.ts:60 | `buf.toString("base64")`: the RFC 4648 symbols of the six-bit cut followed by the padding; characterised by `DecodeEncode`, `EncodeLength` and `EncodeAlphabet` |
| `Base64.Decode` | src/controllers/boxController.ts:36 | `Buffer.from(s, "base64")`: the lenient decoder over the symbols before the first `=`; characterised by `DecodeEncode` and `SextetsOfSymbols` |
| `Js.JsError.ToString` | src/services/r2Service.ts:54 | `${error}` of an Error: the name, `: `, then the message, either part dropped when empty; used by `UploadWritesReturnedKey` |
| `Js.PlainError` | src/services/r2Service.ts:54 | `new Error(message)`: name `Error`, no code; the wrapped errors of `UploadFailure` and `ReadFailure` are built with it |
| `Js.Truthy` | src/controllers/boxController.ts:13 | JavaScript truthiness of an optional string field (`!x` is false): present and non-empty; also used at boxController.ts:22 and imageController.ts:11; characterised by `MissingBoxFieldsRejected`, `BadItemRejected` and `MissingIdIsBadRequest` |
| `Http.Reply.constructor` | src/controllers/imageController.ts:4-7 | a reply starts at status 200 with no headers and nothing sent |
| `Http.Reply.Code` | src/controllers/boxController.ts:14 | `reply.code(c)` sets the status and nothing else |
| `Http.Reply.Type` | src/controllers/imageController.ts:21 | `reply.type(t)` sets the content-type header and nothing else |
| `Http.Reply.Header` | src/controllers/imageController.ts:22 | `reply.header(k, v)` sets one header and nothing else |
| `Http.Reply.Send` | src/controllers/imageController.ts:24 | `reply.send(p)` sets the payload and nothing else |
| `R2Service.FlattenChunks` | src/services/r2Service.ts:77-84 | however the stream is cut into chunks, concatenating them in order gives back the object's bytes |
| `R2Service.Flatten` | src/services/r2Service.ts:84 | `Buffer.concat(chunks)`: the chunks' bytes in order; characterised by `FlattenChunks` |
| `R2Service.NoSuchKey` | src/services/r2Service.ts:70 | the error the store throws for an absent key; used by `Answer` and `FetchFailures` |
| `R2Service.Answer` | src/services/r2Service.ts:65-73 | how GetObject answers: the delivery's fault, an absent key's `NoSuchKey`, a missing body, or the stored body cut into chunks; characterised by `FetchFailures`, `FlattenChunks` and `RetrievalRoundTrip` |
| `R2Service.ObjectStore.constructor` | src/services/r2Service.ts:5-14 | the bucket starts empty with no requests sent |
| `R2Service.ObjectStore.Put` | src/services/r2Service.ts:43-50 | a put stores the bytes and content type under the key, replacing any object there, unless the send throws, in which case nothing changes; one request is sent |
| `R2Service.ObjectStore.Get` | src/services/r2Service.ts:65-70 | a get answers by the key and the delivery and changes nothing stored; one request is sent |
| `R2Service.UploadImage` | src/services/r2Service.ts:22-56 | the returned result and the new bucket contents are the ones `Upload` specifies; exactly one request is sent |
| `R2Service.Upload` | src/services/r2Service.ts:22-56 | the specification of `uploadImage`: the normalised bytes and the content type put under the drawn key and that key returned, or, when the send throws, an untouched bucket and the wrapped error; characterised by `UploadWritesReturnedKey` |
| `R2Service.Base64Text` | src/services/r2Service.ts:34-36 | the text after the first comma and before the next one, or the whole string when there is no comma; characterised by `Base64TextAfterFirstComma` and `NoCommaDecodedWhole` |
| `R2Service.Normalize` | src/services/r2Service.ts:31-40 | a string is decoded after the data-URL prefix is removed, a Buffer is kept; characterised by `BinaryUploadedUnchanged` and `DataUrlUpload` |
| `R2Service.ContentTypeOf` | src/services/r2Service.ts:24 | the content-type argument, `image/jpeg` when it is left out; characterised by `UploadWritesReturnedKey` and `ContentTypeIgnoresPayload` |
| `R2Service.UploadFailure` | src/services/r2Service.ts:53-54 | the upload's wrapped error, whose message starts with the fixed prefix (`UploadWritesReturnedKey`) |
| `R2Service.UploadWritesReturnedKey` | src/services/r2Service.ts:24-55 | success exactly when the send does not throw; on success the returned id is the drawn key, the key set grows by that key only, the object holds the normalised bytes and the argument's content type (or `image/jpeg`), and other objects are unchanged; on failure nothing changes and the message starts with `Failed to upload image to R2: ` |
| `R2Service.BinaryUploadedUnchanged` | src/services/r2Service.ts:38-46 | a Buffer upload stores that Buffer byte for byte |
| `R2Service.NoCommaDecodedWhole` | src/services/r2Service.ts:34-36 | a string without a comma is decoded whole |
| `R2Service.Base64TextAfterFirstComma` | src/services/r2Service.ts:32-37 | for a string with a comma, the decoded text is exactly the piece between the first comma and the next comma or the end |
| `R2Service.DataUrlUpload` | src/services/r2Service.ts:31-47 | a data URL `data:<type>;base64,<canonical base64 of b>` uploads exactly `b`, with the argument's content type or the default, whatever `<type>` says |
| `R2Service.ContentTypeIgnoresPayload` | src/services/r2Service.ts:24-47 | the content type written does not depend on the image data |
| `R2Service.GetImage` | src/services/r2Service.ts:63-88 | the chunk-collecting loop and concatenation return what `FetchImage` specifies, which is the stored bytes on success; the bucket is unchanged and one request is sent |
| `R2Service.FetchImage` | src/services/r2Service.ts:63-88 | the specification of `getImage`: the stored bytes, or the wrapped error for a throwing send, an absent key or a missing body; characterised by `FetchFailures` and `RetrievalRoundTrip` |
| `R2Service.ReadFailure` | src/services/r2Service.ts:85-86 | the read's wrapped error: the prefix, then the message or, when that is empty, the error's string form (`FetchFailures`) |
| `R2Service.FetchFailures` | src/services/r2Service.ts:70-87 | `getImage` fails exactly when the send throws, the key is absent or the body is missing, and every failure message starts with `Failed to get image from R2: ` |
| `R2Service.RetrievalRoundTrip` | src/services/r2Service.ts:45-84 | reading back the id an upload returned, streamed in any chunks, gives exactly the uploaded (normalised) bytes |
| `R2Service.ImageUrlNamesKey` | src/services/r2Service.ts:95-103 | with a truthy public URL the result is that URL, `/`, then the key, so distinct keys give distinct URLs; otherwise it is `""` |
| `R2Service.GetImageUrl` | src/services/r2Service.ts:95-103 | the public URL of a key, or `""` without a truthy base URL; characterised by `ImageUrlNamesKey` |
| `ImageController.GetImageById` | src/controllers/imageController.ts:4-37 | a falsy id gives the 400 reply and no store request; otherwise exactly one request is sent and the reply is `ImageResponse` of what `getImage` returns; the bucket is unchanged |
| `ImageController.ImageResponse` | src/controllers/imageController.ts:17-35 | the reply for a truthy id given `getImage`'s result; characterised by `SuccessHeaders`, `ErrorMapping` and `EveryFetchFailureIsNotFound` |
| `ImageController.ErrorResponse` | src/controllers/imageController.ts:25-35 | the catch block's reply; characterised by `ErrorMapping` |
| `ImageController.MissingIdResponse` | src/controllers/imageController.ts:11-15 | the 400 reply `imageId is required`; characterised by `MissingIdIsBadRequest` |
| `ImageController.MissingIdIsBadRequest` | src/controllers/imageController.ts:11-15 | a missing or empty id is answered 400, whatever the store would return |
| `ImageController.SuccessHeaders` | src/controllers/imageController.ts:18-24 | a fetched buffer is answered 200 with the buffer as body, exactly the headers content-type `image/jpeg` and Content-Length, the latter reading back as the buffer's length |
| `ImageController.ErrorMapping` | src/controllers/imageController.ts:25-35 | an error is answered 404 exactly when its message includes `Failed to get image`, otherwise 500 with the message |
| `ImageController.EveryFetchFailureIsNotFound` | src/controllers/imageController.ts:18-31 | with the error wrapping of r2Service.ts line 86, a truthy id is answered 200 (exactly when the key is stored and the body streams, with the stored bytes) or 404, never 500 |
| `BoxModel.BoxStore.constructor` | src/models/Box.ts:27 | the collection starts empty and valid |
| `BoxModel.BoxStore.Insert` | src/models/Box.ts:15-27 | `save()` keeps the collection invariant, reports `InsertOutcome`, changes the collection as `AfterInsert` says, and counts one attempt |
| `BoxModel.InsertPreservesInvariant` | src/models/Box.ts:15-25 | every insert keeps the invariant: each box stored under its own id (so ids are unique), every stored box and item has a non-empty id and name, and every stored image is non-empty |
| `BoxModel.DuplicateRejected` | src/models/Box.ts:22 | an insert under a stored id is rejected, with code 11000 when the box conforms and the database answers, and the stored record is unchanged |
| `BoxModel.NonConformingRejected` | src/models/Box.ts:15-23 | a box or item without an id or name, or an empty image Buffer, cannot be stored |
| `BoxModel.SuccessAddsOne` | src/models/Box.ts:21-27 | a successful insert adds exactly one record, under the new id, and no other record changes |
| `BoxModel.Conforms` | src/models/Box.ts:15-25 | the required fields: non-empty box id and name, non-empty item ids and names, non-empty image Buffers; used by `NonConformingRejected` and `InsertPreservesInvariant` |
| `BoxModel.ItemConforms` | src/models/Box.ts:15-19 | an item's required fields: non-empty id and name and a non-empty Buffer per image; characterised by `NonConformingRejected` |
| `BoxModel.Invariant` | src/models/Box.ts:15-25 | the collection's invariant: each box under its own id (the unique index) and conforming to the schema; characterised by `InsertPreservesInvariant` |
| `BoxModel.InsertOutcome` | src/models/Box.ts:15-27 | `save()`'s outcome: validation first, then a failing database call, then the unique index; characterised by `DuplicateRejected`, `NonConformingRejected` and `SuccessAddsOne` |
| `BoxModel.AfterInsert` | src/models/Box.ts:15-27 | the collection after `save()`: the box added under its id on success, otherwise unchanged; characterised by `InsertPreservesInvariant` and `SuccessAddsOne` |
| `BoxController.FirstInvalidItem` | src/controllers/boxController.ts:20-28 | the loop finds no bad item exactly when every item has a truthy id and name; otherwise it returns the first bad item's index |
| `BoxController.BoxFieldsPresent` | src/controllers/boxController.ts:13 | the box check: truthy `id` and `name`; characterised by `MissingBoxFieldsRejected` |
| `BoxController.ItemValid` | src/controllers/boxController.ts:22 | the item check: truthy `id` and `name`; characterised by `FirstInvalidItem` and `BadItemRejected` |
| `BoxController.ItemsValid` | src/controllers/boxController.ts:20-27 | `items` absent, or every item passes the item check; characterised by `FirstInvalidItem`, `BadItemRejected` and `AbsentItemsIsEmpty` |
| `BoxController.MissingImageError` | src/controllers/boxController.ts:33 | the TypeError `item.image.map` throws when `image` is absent; characterised by `MissingImageArrayIsServerError` |
| `BoxController.ProcessItems` | src/controllers/boxController.ts:31-41 | the map succeeds exactly when every item has an `image` array (else it throws the TypeError), keeps the number and order of items and of each item's images, copies ids and names, and normalises each image by its kind |
| `BoxController.NormalizeImage` | src/controllers/boxController.ts:33-40 | a string image is base64-decoded whole, a Buffer is kept; used by `ProcessItems` and `PreparedRecordShape` |
| `BoxController.ProcessBox` | src/controllers/boxController.ts:31-46 | the processed box, with `items` defaulting to the empty list; characterised by `PreparedRecordShape` and `AbsentItemsIsEmpty` |
| `BoxController.Prepare` | src/controllers/boxController.ts:13-46 | everything before `save()`: the two 400 checks in order, then processing; characterised by `MissingBoxFieldsRejected`, `BadItemRejected` and `MissingImageArrayIsServerError` |
| `BoxController.ToView` | src/controllers/boxController.ts:52-62 | the saved box as the 201 body shows it, each image re-encoded; characterised by `SuccessEchoesSubmission` |
| `BoxController.ErrorResponse` | src/controllers/boxController.ts:64-76 | the catch block's reply; characterised by `BoxController.ErrorMapping` |
| `BoxController.CreateBoxResponse` | src/controllers/boxController.ts:5-77 | the specification of `createBox`'s reply; characterised by the lemmas below |
| `BoxController.StoreAfter` | src/controllers/boxController.ts:48-50 | the specification of the collection after `createBox`; characterised by the lemmas below |
| `BoxController.ReplyWithError` | src/controllers/boxController.ts:64-76 | the catch block sends `ErrorResponse(e)` |
| `BoxController.CreateBox` | src/controllers/boxController.ts:5-77 | the reply is `CreateBoxResponse`, the collection becomes `StoreAfter`, and one save is attempted exactly when validation and processing succeed |
| `BoxController.MissingBoxFieldsRejected` | src/controllers/boxController.ts:13-17 | a falsy box id or name is answered 400 with its message, no save is attempted and the collection is unchanged |
| `BoxController.BadItemRejected` | src/controllers/boxController.ts:20-28 | an item with a falsy id or name is answered 400 with its message, no save is attempted and the collection is unchanged |
| `BoxController.AbsentItemsIsEmpty` | src/controllers/boxController.ts:20-31 | an absent `items` passes validation and the record to save has no items |
| `BoxController.MissingImageArrayIsServerError` | src/controllers/boxController.ts:33-76 | an item without an `image` array passes validation, but processing then throws, so the answer is 500 with the TypeError's message and nothing is saved |
| `BoxController.EmptyImageIsServerError` | src/controllers/boxController.ts:31-75 | an accepted, processed submission with an image that decodes to no bytes fails the schema's validation: 500 with the validation message, nothing stored |
| `BoxController.EmptyStringImageExample` | src/controllers/boxController.ts:31-75 | the submission of one item whose one image is `""` is answered 500 and stores nothing |
| `BoxController.PreparedRecordShape` | src/controllers/boxController.ts:31-46 | the record to save has the box's id and name and the same items in order, with their ids, names and images in order and each image normalised |
| `BoxController.PreparedRecordConforms` | src/controllers/boxController.ts:31-50 | the record built from an accepted request has the box's id and name and non-empty item ids and names; it passes the schema's required-field validation exactly when no image normalises to an empty Buffer |
| `BoxController.SuccessEchoesSubmission` | src/controllers/boxController.ts:52-62 | when no image is empty and the id is new, the answer is 201 with the box and item ids and names and each image re-encoded as base64: a canonical base64 string comes back unchanged, and a Buffer comes back as its encoding |
| `BoxController.DuplicateIsConflict` | src/controllers/boxController.ts:64-70 | a processed box with no empty image whose id is already stored is answered 409 and the collection is unchanged |
| `BoxController.ErrorMapping` | src/controllers/boxController.ts:64-76 | an error is answered 409 exactly when its code is 11000, otherwise 500 with its message |
| `BoxController.SuccessStoresRecord` | src/controllers/boxController.ts:48-62 | a 201 answer means no image was empty, the database did not fail, the id was new, exactly the prepared record was stored under it, and the response shows that record |

## Left out

- Fastify routing, server start-up, environment loading, logging (`request.log.error`) and the `/status` endpoint are wiring, not logic. The S3 client construction and the database connection are the same. src/index.ts, src/db/connection.ts and src/controllers/statusController.ts are not part of this model.
- The network calls to R2 and MongoDB are replaced by the `ObjectStore` and `BoxStore` classes. Their failures enter as `fault` arguments.
- A `fault` is a call that has no effect on the store: `ObjectStore.Put` keeps the bucket, and `InsertOutcome`/`AfterInsert` keep the collection. So `UploadWritesReturnedKey`, `BoxModel.DuplicateRejected`, `BoxController.StoreAfter` and the lemmas built on them state that nothing changes on failure. A PutObject or insert that the store applies and that then fails in transit, leaving the object or box stored while the caller sees an error, is not modelled.
- uuid randomness is not modelled: the drawn id is an argument. Freshness is not assumed. As in S3, a put under an existing key replaces the object.
- async/await and `for await` are not modelled. The stream is a finite sequence of chunks whose sizes the `Delivery` gives.
- Mongoose's own casting and validation machinery is not modelled. Only the declared required fields (non-empty strings and non-empty image Buffers) and the unique index are.
- Error message texts produced outside the service are representative stand-ins: MongoDB's duplicate-key message, Mongoose's validation message, the S3 NoSuchKey message and the TypeError text. The service's own behaviour depends only on the error `code` and on its own prefixes.
- Request bodies are modelled as records whose fields are absent or strings. A missing body, and `id`/`name` values of other JSON types, are not modelled.
- An image value that is neither a string nor a Buffer goes through `Buffer.from(img)`. It is modelled as a byte sequence passed through unchanged. Numbers and out-of-range array entries are not modelled.
- Base64.Decode: Node's legacy decoder reads only the low byte of a UTF-16 code unit. The model treats every character outside its table as skipped, so characters above U+00FF are not mapped the way Node maps them.
- Fastify's JSON serialisation and the content-type it adds to JSON replies are not modelled. A JSON reply's headers are left empty.
