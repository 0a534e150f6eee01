/** The image retrieval handler of src/controllers/imageController.ts:
    `GET /images/:imageId`. */
module ImageController {
  import opened Js
  import opened Text
  import opened Http
  import R2Service

  /** The JSON bodies `{error, message?}` (the optional `message` held in
      `detail`) and the raw image the handler sends. */
  datatype ImageBody = ErrorBody(error: string, detail: Option<string>) | ImageBytes(data: seq<byte>)

  const ServedContentType: string := "image/jpeg"
  const NotFoundMarker: string := "Failed to get image"

  /** The reply for an error caught from `getImage`: 404 when its message
      includes "Failed to get image", otherwise 500 with the message. */
  function ErrorResponse(e: JsError): Response<ImageBody>
  {
    if Contains(e.message, NotFoundMarker) then Response(404, map[], Some(ErrorBody("Image not found", None)))
    else Response(500, map[], Some(ErrorBody("Internal server error", Some(e.message))))
  }

  /** The reply to a request without an id. */
  function MissingIdResponse(): Response<ImageBody>
  {
    Response(400, map[], Some(ErrorBody("imageId is required", None)))
  }

  /** The reply the handler produces for the route parameter `imageId`
      (absent or a string), given what `getImage` returns. */
  function ImageResponse(imageId: Option<string>, fetched: Result<seq<byte>, JsError>): Response<ImageBody>
  {
    if !Truthy(imageId) then MissingIdResponse()
    else
      match fetched
      case Ok(buffer) =>
        Response(200, map["content-type" := ServedContentType, "content-length" := Decimal(|buffer|)],
                 Some(ImageBytes(buffer)))
      case Err(e) => ErrorResponse(e)
  }

  /** `getImageById`: checks the parameter, fetches the image, sets the
      type and length headers and sends the bytes, mapping errors. The
      store is queried only for a truthy id. */
  method GetImageById(imageId: Option<string>, store: R2Service.ObjectStore, delivery: R2Service.Delivery,
                      reply: Reply<ImageBody>)
    requires reply.Fresh()
    modifies store, reply
    ensures store.objects == old(store.objects)
    ensures store.requests == old(store.requests) + (if Truthy(imageId) then 1 else 0)
    ensures !Truthy(imageId) ==> reply.View() == MissingIdResponse()
    ensures Truthy(imageId) ==>
      reply.View() == ImageResponse(imageId, R2Service.FetchImage(store.objects, imageId.value, delivery))
  {
    if !Truthy(imageId) {
      reply.Code(400);
      reply.Send(ErrorBody("imageId is required", None));
      return;
    }
    var fetched := R2Service.GetImage(store, imageId.value, delivery);
    match fetched {
      case Ok(imageBuffer) =>
        reply.Type(ServedContentType);
        reply.Header("content-length", Decimal(|imageBuffer|));
        reply.Send(ImageBytes(imageBuffer));
      case Err(e) =>
        if Contains(e.message, NotFoundMarker) {
          reply.Code(404);
          reply.Send(ErrorBody("Image not found", None));
        } else {
          reply.Code(500);
          reply.Send(ErrorBody("Internal server error", Some(e.message)));
        }
    }
  }

  /** A missing or empty id is answered 400, whatever the store would say. */
  lemma MissingIdIsBadRequest(imageId: Option<string>, f1: Result<seq<byte>, JsError>, f2: Result<seq<byte>, JsError>)
    requires !Truthy(imageId)
    ensures ImageResponse(imageId, f1).status == 400
    ensures ImageResponse(imageId, f1) == ImageResponse(imageId, f2)
  {
  }

  /** A successful fetch is answered 200 with the buffer as the body, the
      fixed `image/jpeg` type and a Content-Length that reads back as the
      buffer's length. */
  lemma {:induction false} SuccessHeaders(imageId: string, buffer: seq<byte>)
    requires imageId != ""
    ensures var r := ImageResponse(Some(imageId), Ok(buffer));
      && r.status == 200
      && r.payload == Some(ImageBytes(buffer))
      && r.headers.Keys == {"content-type", "content-length"}
      && r.headers["content-type"] == "image/jpeg"
      && DecimalValue(r.headers["content-length"]) == |buffer|
  {
    DecimalRoundTrip(|buffer|);
  }

  /** An error is answered 404 exactly when its message includes
      "Failed to get image"; every other error is answered 500 and its
      message is sent. */
  lemma ErrorMapping(e: JsError)
    ensures ErrorResponse(e).status == 404 <==> Contains(e.message, "Failed to get image")
    ensures ErrorResponse(e).status != 404 ==>
      ErrorResponse(e).status == 500 && ErrorResponse(e).payload == Some(ErrorBody("Internal server error", Some(e.message)))
  {
  }

  /** Because `getImage` wraps every failure in "Failed to get image from
      R2: ", every store-side failure is answered 404: for a truthy id the
      handler answers 200 with the stored bytes or 404, never 500. */
  lemma EveryFetchFailureIsNotFound(objects: map<string, R2Service.StoredObject>, imageId: string,
                                    delivery: R2Service.Delivery)
    requires imageId != ""
    ensures var r := ImageResponse(Some(imageId), R2Service.FetchImage(objects, imageId, delivery));
      && (r.status == 200 || r.status == 404)
      && (r.status == 200 <==> (imageId in objects && delivery.Stream?))
      && (r.status == 200 ==> r.payload == Some(ImageBytes(objects[imageId].body)))
  {
    R2Service.FetchFailures(objects, imageId, delivery);
    var fetched := R2Service.FetchImage(objects, imageId, delivery);
    if fetched.Err? {
      PrefixIsContained(fetched.error.message, NotFoundMarker, R2Service.ReadFailurePrefix);
    }
  }
}
