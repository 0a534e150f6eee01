/** The box submission handler of src/controllers/boxController.ts:
    `POST /boxes`. It validates the box and each item, decodes every string
    image from base64 (a Buffer passes through), saves the record, and
    answers 201 with the saved box, its images re-encoded as base64; a
    duplicate id is answered 409 and any other error 500. */
module BoxController {
  import opened Js
  import opened Http
  import opened BoxModel
  import Base64

  /** A submitted item: any field may be absent from the request body. */
  datatype ItemRequest = ItemRequest(id: Option<string>, name: Option<string>, image: Option<seq<ImageData>>)
  /** A submitted box. */
  datatype BoxRequest = BoxRequest(id: Option<string>, name: Option<string>, items: Option<seq<ItemRequest>>)

  /** The box as the 201 response shows it. */
  datatype ItemView = ItemView(id: string, name: string, image: seq<string>)
  datatype BoxView = BoxView(id: string, name: string, items: seq<ItemView>)

  /** The JSON bodies the handler sends: `{error, message?}` (the optional
      `message` held in `detail`) or `{message, box}`. */
  datatype BoxBody = ErrorBody(error: string, detail: Option<string>) | Created(message: string, box: BoxView)

  const MissingFieldsMessage: string := "Missing required fields: id and name are required"
  const BadItemMessage: string := "Each item must have id and name"
  const CreatedMessage: string := "Box created successfully"

  /** How far a submission gets before the save: rejected with a 400
      message, an exception thrown while processing it, or the record to save. */
  datatype Stage = Rejected(error: string) | Thrown(exception: JsError) | Ready(record: StoredBox)

  // ---------------------------------------------------------------------
  // Validation

  predicate BoxFieldsPresent(req: BoxRequest)
  {
    Truthy(req.id) && Truthy(req.name)
  }

  predicate ItemValid(item: ItemRequest)
  {
    Truthy(item.id) && Truthy(item.name)
  }

  /** The item check passes: `items` is absent, or every item has a truthy
      `id` and `name`. */
  predicate ItemsValid(req: BoxRequest)
  {
    req.items.None? || forall i :: 0 <= i < |req.items.value| ==> ItemValid(req.items.value[i])
  }

  /** The validation loop: scans the items in order and stops at the first
      one lacking an `id` or a `name`. */
  method FirstInvalidItem(items: seq<ItemRequest>) returns (bad: Option<nat>)
    ensures bad.None? <==> forall i :: 0 <= i < |items| ==> ItemValid(items[i])
    ensures bad.Some? ==> bad.value < |items| && !ItemValid(items[bad.value])
    ensures bad.Some? ==> forall j :: 0 <= j < bad.value ==> ItemValid(items[j])
  {
    for i := 0 to |items|
      invariant forall j :: 0 <= j < i ==> ItemValid(items[j])
    {
      if !ItemValid(items[i]) {
        return Some(i);
      }
    }
    return None;
  }

  // ---------------------------------------------------------------------
  // Processing

  /** A string image is decoded from base64 as a whole (no data-URL prefix
      is removed here); a Buffer is kept as it is. */
  function NormalizeImage(img: ImageData): seq<byte>
  {
    match img
    case StringImage(s) => Base64.Decode(s)
    case BufferImage(b) => b
  }

  /** The TypeError thrown by `item.image.map` when an item has no `image`. */
  function MissingImageError(): JsError
  {
    JsError("TypeError", "Cannot read properties of undefined (reading 'map')", None)
  }

  /** `processedItems`: each item with its images normalised. The map
      throws at the first item without an `image` array. */
  function ProcessItems(items: seq<ItemRequest>): (r: Result<seq<StoredItem>, JsError>)
    requires forall i :: 0 <= i < |items| ==> ItemValid(items[i])
    ensures r.Ok? <==> forall i :: 0 <= i < |items| ==> items[i].image.Some?
    ensures r.Err? ==> r.error == MissingImageError()
    ensures r.Ok? ==> |r.value| == |items|
    ensures r.Ok? ==> forall i :: 0 <= i < |items| ==>
      && items[i].id == Some(r.value[i].id)
      && items[i].name == Some(r.value[i].name)
      && |r.value[i].image| == |items[i].image.value|
      && forall j :: 0 <= j < |r.value[i].image| ==> r.value[i].image[j] == NormalizeImage(items[i].image.value[j])
  {
    if items == [] then Ok([])
    else
      var item := items[0];
      assert ItemValid(item);
      if item.image.None? then Err(MissingImageError())
      else
        var images := item.image.value;
        var stored := StoredItem(item.id.value, item.name.value, seq(|images|, j requires 0 <= j < |images| => NormalizeImage(images[j])));
        match ProcessItems(items[1..])
        case Err(e) => Err(e)
        case Ok(rest) => Ok([stored] + rest)
  }

  /** No submitted image normalises to an empty Buffer, which the schema's
      per-element `required` on `image` would reject. */
  predicate ImagesNonEmpty(req: BoxRequest)
  {
    req.items.None? ||
    forall i, j :: 0 <= i < |req.items.value| && req.items.value[i].image.Some? && 0 <= j < |req.items.value[i].image.value|
      ==> NormalizeImage(req.items.value[i].image.value[j]) != []
  }

  /** `processedBox`: the box with `items` defaulting to the empty list. */
  function ProcessBox(req: BoxRequest): Result<StoredBox, JsError>
    requires BoxFieldsPresent(req) && ItemsValid(req)
  {
    match ProcessItems(req.items.GetOr([]))
    case Err(e) => Err(e)
    case Ok(items) => Ok(StoredBox(req.id.value, req.name.value, items))
  }

  /** Everything the handler does before `save()`. */
  function Prepare(req: BoxRequest): Stage
  {
    if !BoxFieldsPresent(req) then Rejected(MissingFieldsMessage)
    else if !ItemsValid(req) then Rejected(BadItemMessage)
    else
      match ProcessBox(req)
      case Err(e) => Thrown(e)
      case Ok(b) => Ready(b)
  }

  // ---------------------------------------------------------------------
  // Response

  /** The saved box with each image re-encoded as base64. */
  function ToView(saved: StoredBox): BoxView
  {
    BoxView(saved.id, saved.name,
      seq(|saved.items|, i requires 0 <= i < |saved.items| =>
        var item := saved.items[i];
        ItemView(item.id, item.name,
          seq(|item.image|, j requires 0 <= j < |item.image| => Base64.Encode(item.image[j])))))
  }

  /** The catch block: the duplicate-key code gives 409, anything else 500
      with the error's message. */
  function ErrorResponse(e: JsError): Response<BoxBody>
  {
    if e.code == Some(DuplicateKeyCode) then Response(409, map[], Some(ErrorBody("Box with this id already exists", None)))
    else Response(500, map[], Some(ErrorBody("Internal server error", Some(e.message))))
  }

  /** The reply to submission `req` on a collection holding `boxes`, when
      the database call fails with `fault` (if any). */
  function CreateBoxResponse(req: BoxRequest, boxes: map<string, StoredBox>, fault: Option<JsError>): Response<BoxBody>
  {
    match Prepare(req)
    case Rejected(message) => Response(400, map[], Some(ErrorBody(message, None)))
    case Thrown(e) => ErrorResponse(e)
    case Ready(b) =>
      match InsertOutcome(boxes, b, fault)
      case Err(e) => ErrorResponse(e)
      case Ok(saved) => Response(201, map[], Some(Created(CreatedMessage, ToView(saved))))
  }

  /** The collection after handling `req`. */
  function StoreAfter(req: BoxRequest, boxes: map<string, StoredBox>, fault: Option<JsError>): map<string, StoredBox>
  {
    match Prepare(req)
    case Ready(b) => AfterInsert(boxes, b, fault)
    case _ => boxes
  }

  /** Sends the catch block's reply for `e`. */
  method ReplyWithError(reply: Reply<BoxBody>, e: JsError)
    requires reply.Fresh()
    modifies reply
    ensures reply.View() == ErrorResponse(e)
  {
    if e.code == Some(DuplicateKeyCode) {
      reply.Code(409);
      reply.Send(ErrorBody("Box with this id already exists", None));
    } else {
      reply.Code(500);
      reply.Send(ErrorBody("Internal server error", Some(e.message)));
    }
  }

  /** `createBox`. The save is attempted only for a submission that passes
      validation and processing. */
  method CreateBox(req: BoxRequest, store: BoxStore, fault: Option<JsError>, reply: Reply<BoxBody>)
    requires store.Valid() && reply.Fresh()
    modifies store, reply
    ensures store.Valid()
    ensures reply.View() == CreateBoxResponse(req, old(store.boxes), fault)
    ensures store.boxes == StoreAfter(req, old(store.boxes), fault)
    ensures store.attempts == old(store.attempts) + (if Prepare(req).Ready? then 1 else 0)
  {
    if !Truthy(req.id) || !Truthy(req.name) {
      reply.Code(400);
      reply.Send(ErrorBody(MissingFieldsMessage, None));
      return;
    }
    if req.items.Some? {
      var bad := FirstInvalidItem(req.items.value);
      if bad.Some? {
        reply.Code(400);
        reply.Send(ErrorBody(BadItemMessage, None));
        return;
      }
    }
    var processed := ProcessBox(req);
    if processed.Err? {
      ReplyWithError(reply, processed.error);
      return;
    }
    var saved := store.Insert(processed.value, fault);
    match saved {
      case Err(e) =>
        ReplyWithError(reply, e);
      case Ok(savedBox) =>
        reply.Code(201);
        reply.Send(Created(CreatedMessage, ToView(savedBox)));
    }
  }

  // ---------------------------------------------------------------------
  // Properties

  /** A box without a truthy `id` or `name` is answered 400 and nothing is saved. */
  lemma MissingBoxFieldsRejected(req: BoxRequest, boxes: map<string, StoredBox>, fault: Option<JsError>)
    requires !Truthy(req.id) || !Truthy(req.name)
    ensures !Prepare(req).Ready?
    ensures CreateBoxResponse(req, boxes, fault) == Response(400, map[], Some(ErrorBody(MissingFieldsMessage, None)))
    ensures StoreAfter(req, boxes, fault) == boxes
  {
  }

  /** A box with an item lacking `id` or `name` is answered 400 and nothing is saved. */
  lemma BadItemRejected(req: BoxRequest, boxes: map<string, StoredBox>, fault: Option<JsError>, k: nat)
    requires BoxFieldsPresent(req)
    requires req.items.Some? && k < |req.items.value| && !ItemValid(req.items.value[k])
    ensures !Prepare(req).Ready?
    ensures CreateBoxResponse(req, boxes, fault) == Response(400, map[], Some(ErrorBody(BadItemMessage, None)))
    ensures StoreAfter(req, boxes, fault) == boxes
  {
  }

  /** An absent `items` passes validation and gives a record with no items. */
  lemma AbsentItemsIsEmpty(req: BoxRequest)
    requires BoxFieldsPresent(req) && req.items.None?
    ensures Prepare(req) == Ready(StoredBox(req.id.value, req.name.value, []))
  {
  }

  /** An item without an `image` array passes validation, but the map then
      throws: the answer is 500, not 400, and nothing is saved. */
  lemma MissingImageArrayIsServerError(req: BoxRequest, boxes: map<string, StoredBox>, fault: Option<JsError>, k: nat)
    requires BoxFieldsPresent(req) && ItemsValid(req)
    requires req.items.Some? && k < |req.items.value| && req.items.value[k].image.None?
    ensures Prepare(req) == Thrown(MissingImageError())
    ensures CreateBoxResponse(req, boxes, fault).status == 500
    ensures CreateBoxResponse(req, boxes, fault).payload
            == Some(ErrorBody("Internal server error", Some("Cannot read properties of undefined (reading 'map')")))
    ensures StoreAfter(req, boxes, fault) == boxes
  {
  }

  /** The record to save carries the submitted `id` and `name`, and every
      box and item id and name in it is non-empty; it conforms to the
      schema, so Mongoose's validation accepts it, exactly when no image
      normalises to an empty Buffer. */
  lemma PreparedRecordConforms(req: BoxRequest)
    requires Prepare(req).Ready?
    ensures Prepare(req).record.id == req.id.value && Prepare(req).record.name == req.name.value
    ensures var b := Prepare(req).record;
      forall i :: 0 <= i < |b.items| ==> b.items[i].id != "" && b.items[i].name != ""
    ensures Conforms(Prepare(req).record) <==> ImagesNonEmpty(req)
  {
    var items := req.items.GetOr([]);
    var b := Prepare(req).record;
    assert b.items == ProcessItems(items).value;
    forall i | 0 <= i < |b.items| ensures b.items[i].id != "" && b.items[i].name != "" {
      assert ItemValid(items[i]);
    }
    if ImagesNonEmpty(req) {
      forall i | 0 <= i < |b.items| ensures ItemConforms(b.items[i]) {
        assert ItemValid(items[i]);
        forall j | 0 <= j < |b.items[i].image| ensures b.items[i].image[j] != [] {
          assert b.items[i].image[j] == NormalizeImage(req.items.value[i].image.value[j]);
        }
      }
    }
    if Conforms(b) && req.items.Some? {
      forall i, j | 0 <= i < |req.items.value| && req.items.value[i].image.Some? && 0 <= j < |req.items.value[i].image.value|
        ensures NormalizeImage(req.items.value[i].image.value[j]) != []
      {
        assert ItemConforms(b.items[i]);
        assert b.items[i].image[j] == NormalizeImage(req.items.value[i].image.value[j]);
      }
    }
  }

  /** A submission that passes validation and processing but has an image
      that decodes to no bytes (such as `""`, `"="` or `"Q"`, or an empty
      Buffer) fails Mongoose's validation: the error has no code, so the
      answer is 500, and nothing is saved. */
  lemma EmptyImageIsServerError(req: BoxRequest, boxes: map<string, StoredBox>, fault: Option<JsError>, i: nat, j: nat)
    requires Prepare(req).Ready?
    requires req.items.Some? && i < |req.items.value|
    requires req.items.value[i].image.Some? && j < |req.items.value[i].image.value|
    requires NormalizeImage(req.items.value[i].image.value[j]) == []
    ensures CreateBoxResponse(req, boxes, fault)
            == Response(500, map[], Some(ErrorBody("Internal server error", Some(ValidationError().message))))
    ensures StoreAfter(req, boxes, fault) == boxes
  {
    var b := Prepare(req).record;
    PreparedRecordShape(req);
    assert b.items[i].image[j] == [];
    assert !ItemConforms(b.items[i]);
    assert InsertOutcome(boxes, b, fault) == Err(ValidationError());
    assert CreateBoxResponse(req, boxes, fault) == ErrorResponse(ValidationError());
  }

  /** The record to save keeps the box's `id` and `name`, the number and
      order of items with their `id` and `name`, and the number and order
      of each item's images, each normalised by its kind. */
  lemma PreparedRecordShape(req: BoxRequest)
    requires Prepare(req).Ready?
    ensures var b := Prepare(req).record;
      var items := req.items.GetOr([]);
      && b.id == req.id.value && b.name == req.name.value
      && |b.items| == |items|
      && forall i :: 0 <= i < |items| ==>
           && b.items[i].id == items[i].id.value && b.items[i].name == items[i].name.value
           && items[i].image.Some?
           && |b.items[i].image| == |items[i].image.value|
           && forall j :: 0 <= j < |b.items[i].image| ==> b.items[i].image[j] == NormalizeImage(items[i].image.value[j])
  {
  }

  /** On a successful save the answer is 201 with the same box and item
      ids and names, and each image re-encoded as base64: a submitted
      string in canonical base64 comes back as it was sent, a Buffer comes
      back as its encoding. */
  lemma {:induction false} SuccessEchoesSubmission(req: BoxRequest, boxes: map<string, StoredBox>, i: nat, j: nat)
    requires Prepare(req).Ready? && ImagesNonEmpty(req) && Prepare(req).record.id !in boxes
    requires req.items.Some? && i < |req.items.value|
    requires req.items.value[i].image.Some? && j < |req.items.value[i].image.value|
    ensures var r := CreateBoxResponse(req, boxes, None);
      var img := req.items.value[i].image.value[j];
      && r.status == 201 && r.payload.Some? && r.payload.value.Created?
      && r.payload.value.message == CreatedMessage
      && var v := r.payload.value.box;
      && v.id == req.id.value && v.name == req.name.value
      && |v.items| == |req.items.value|
      && v.items[i].id == req.items.value[i].id.value && v.items[i].name == req.items.value[i].name.value
      && |v.items[i].image| == |req.items.value[i].image.value|
      && (img.BufferImage? ==> v.items[i].image[j] == Base64.Encode(img.bytes))
      && (img.StringImage? && (exists c :: img.text == Base64.Encode(c)) ==> v.items[i].image[j] == img.text)
  {
    PreparedRecordConforms(req);
    PreparedRecordShape(req);
    var img := req.items.value[i].image.value[j];
    if img.StringImage? && exists c :: img.text == Base64.Encode(c) {
      var c :| img.text == Base64.Encode(c);
      Base64.CanonicalEcho(img.text, c);
    }
  }

  /** For instance, an item whose one image is the empty string. */
  lemma EmptyStringImageExample()
    ensures var req := BoxRequest(Some("b"), Some("n"), Some([ItemRequest(Some("i"), Some("m"), Some([StringImage("")]))]));
      CreateBoxResponse(req, map[], None).status == 500 && StoreAfter(req, map[], None) == map[]
  {
    var req := BoxRequest(Some("b"), Some("n"), Some([ItemRequest(Some("i"), Some("m"), Some([StringImage("")]))]));
    assert NormalizeImage(StringImage("")) == [];
    assert Prepare(req).Ready?;
    EmptyImageIsServerError(req, map[], None, 0, 0);
  }

  /** A submission that passes validation, with no empty image, whose id
      is already stored is answered 409 and the stored record is left
      unchanged. */
  lemma DuplicateIsConflict(req: BoxRequest, boxes: map<string, StoredBox>)
    requires Prepare(req).Ready? && ImagesNonEmpty(req) && req.id.value in boxes
    ensures CreateBoxResponse(req, boxes, None) == Response(409, map[], Some(ErrorBody("Box with this id already exists", None)))
    ensures StoreAfter(req, boxes, None) == boxes
  {
    PreparedRecordConforms(req);
    var b := Prepare(req).record;
    assert InsertOutcome(boxes, b, None) == Err(DuplicateKeyError(b.id));
  }

  /** An error with code 11000 is answered 409; every other error 500,
      with its message in the body. */
  lemma ErrorMapping(e: JsError)
    ensures ErrorResponse(e).status == 409 <==> e.code == Some(11000)
    ensures e.code != Some(11000) ==> ErrorResponse(e) == Response(500, map[], Some(ErrorBody("Internal server error", Some(e.message))))
  {
  }

  /** A successful submission had no empty image and stores exactly one
      new record, under the submitted id, and the response shows that
      record. */
  lemma SuccessStoresRecord(req: BoxRequest, boxes: map<string, StoredBox>, fault: Option<JsError>)
    requires CreateBoxResponse(req, boxes, fault).status == 201
    ensures Prepare(req).Ready? && ImagesNonEmpty(req) && fault.None?
    ensures req.id.value !in boxes
    ensures StoreAfter(req, boxes, fault) == boxes[req.id.value := Prepare(req).record]
    ensures CreateBoxResponse(req, boxes, fault).payload == Some(Created(CreatedMessage, ToView(Prepare(req).record)))
  {
    PreparedRecordConforms(req);
  }
}
