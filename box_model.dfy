/** The `Box` collection of src/models/Box.ts: boxes keyed by their `id`
    under a unique index, each item and box with its required fields. The
    document store is external; what it guarantees, and all the model
    relies on, is the schema's required fields and the unique `id`. */
module BoxModel {
  import opened Js

  datatype StoredItem = StoredItem(id: string, name: string, image: seq<seq<byte>>)
  datatype StoredBox = StoredBox(id: string, name: string, items: seq<StoredItem>)

  /** The MongoDB error code for a unique-index violation. */
  const DuplicateKeyCode: int := 11000

  /** The schemas' required fields: a required String must be a non-empty
      string, for the box's `id` and `name` and for each item's; each
      element of an item's `image` array is a required Buffer, which must
      be non-empty. */
  predicate Conforms(b: StoredBox)
  {
    && b.id != "" && b.name != ""
    && forall i :: 0 <= i < |b.items| ==> ItemConforms(b.items[i])
  }

  predicate ItemConforms(item: StoredItem)
  {
    && item.id != "" && item.name != ""
    && forall j :: 0 <= j < |item.image| ==> item.image[j] != []
  }

  /** The collection's invariant: each box is stored under its own `id`,
      so no two stored boxes share an id, and each conforms to the schema. */
  predicate Invariant(boxes: map<string, StoredBox>)
  {
    forall k :: k in boxes ==> boxes[k].id == k && Conforms(boxes[k])
  }

  /** The error Mongoose raises when a required field is missing. */
  function ValidationError(): JsError
  {
    JsError("ValidationError", "Box validation failed", None)
  }

  const DuplicateKeyMessage: string := "E11000 duplicate key error collection: boxes index: id_1 dup key"

  /** The error the MongoDB driver raises for a second box with the same id. */
  function DuplicateKeyError(id: string): JsError
  {
    JsError("MongoServerError", DuplicateKeyMessage + ": { id: \"" + id + "\" }", Some(DuplicateKeyCode))
  }

  /** What `save()` reports for box `b` on a collection holding `boxes`;
      `fault` is a failure of the database call itself (a lost connection,
      say). Validation runs first, then the insert. */
  function InsertOutcome(boxes: map<string, StoredBox>, b: StoredBox, fault: Option<JsError>): Result<StoredBox, JsError>
  {
    if !Conforms(b) then Err(ValidationError())
    else if fault.Some? then Err(fault.value)
    else if b.id in boxes then Err(DuplicateKeyError(b.id))
    else Ok(b)
  }

  /** The collection after that `save()`. */
  function AfterInsert(boxes: map<string, StoredBox>, b: StoredBox, fault: Option<JsError>): map<string, StoredBox>
  {
    if InsertOutcome(boxes, b, fault).Ok? then boxes[b.id := b] else boxes
  }

  /** The collection as the service sees it. `attempts` counts the inserts
      sent to it. */
  class BoxStore {
    var boxes: map<string, StoredBox>
    ghost var attempts: nat

    ghost predicate Valid()
      reads this
    {
      Invariant(boxes)
    }

    constructor ()
      ensures Valid() && boxes == map[] && attempts == 0
    {
      boxes := map[];
      attempts := 0;
    }

    /** `new Box(b).save()`. */
    method Insert(b: StoredBox, fault: Option<JsError>) returns (r: Result<StoredBox, JsError>)
      requires Valid()
      modifies this
      ensures Valid()
      ensures attempts == old(attempts) + 1
      ensures r == InsertOutcome(old(boxes), b, fault)
      ensures boxes == AfterInsert(old(boxes), b, fault)
    {
      attempts := attempts + 1;
      r := InsertOutcome(boxes, b, fault);
      if r.Ok? {
        boxes := boxes[b.id := b];
      }
    }
  }

  /** Every insert keeps the invariant. */
  lemma InsertPreservesInvariant(boxes: map<string, StoredBox>, b: StoredBox, fault: Option<JsError>)
    requires Invariant(boxes)
    ensures Invariant(AfterInsert(boxes, b, fault))
  {
  }

  /** A box whose id is already stored is rejected, with the duplicate-key
      code when it conforms and the database answers, and the stored record
      is left as it was. */
  lemma DuplicateRejected(boxes: map<string, StoredBox>, b: StoredBox, fault: Option<JsError>)
    requires b.id in boxes
    ensures InsertOutcome(boxes, b, fault).Err?
    ensures Conforms(b) && fault.None? ==> InsertOutcome(boxes, b, fault).error.code == Some(11000)
    ensures AfterInsert(boxes, b, fault) == boxes
  {
  }

  /** A box without an id or a name, with an item without one, or with an
      empty image Buffer, cannot be stored. */
  lemma NonConformingRejected(boxes: map<string, StoredBox>, b: StoredBox, fault: Option<JsError>)
    requires || b.id == "" || b.name == ""
             || (exists i :: 0 <= i < |b.items| && (b.items[i].id == "" || b.items[i].name == ""))
             || (exists i, j :: 0 <= i < |b.items| && 0 <= j < |b.items[i].image| && b.items[i].image[j] == [])
    ensures InsertOutcome(boxes, b, fault) == Err(ValidationError())
    ensures AfterInsert(boxes, b, fault) == boxes
  {
  }

  /** A successful insert adds exactly one record, under the new id, and
      no other record changes. */
  lemma {:induction false} SuccessAddsOne(boxes: map<string, StoredBox>, b: StoredBox, fault: Option<JsError>)
    requires InsertOutcome(boxes, b, fault).Ok?
    ensures b.id !in boxes && fault.None? && Conforms(b)
    ensures AfterInsert(boxes, b, fault).Keys == boxes.Keys + {b.id}
    ensures |AfterInsert(boxes, b, fault)| == |boxes| + 1
    ensures AfterInsert(boxes, b, fault)[b.id] == b
    ensures forall k :: k in boxes ==> AfterInsert(boxes, b, fault)[k] == boxes[k]
  {
    var after := AfterInsert(boxes, b, fault);
    assert after.Keys == boxes.Keys + {b.id};
    assert |after.Keys| == |boxes.Keys| + 1;
  }
}
