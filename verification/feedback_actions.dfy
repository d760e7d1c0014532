/**
  The feedback server actions (lib/actions/feedback.action.ts): creating a feedback and
  linking it to its product, fetching, updating and deleting it. Every action turns
  whatever it throws into one fixed message per action.
*/
module FeedbackActions {
  import opened Wrappers
  import opened Documents
  import opened Sequences
  import opened ProductModel
  import opened FeedbackModel
  import opened Database

  const CreateFailed := "Failed to create feedback"
  const FetchFailed := "Failed to fetch feedback"
  const DeleteFailed := "Failed to delete feedback"
  const UpdateFailed := "Failed to update feedback"

  /**
    The argument of `createFeedback`. `productId` names the product to link to; the
    Feedback schema has no such path, so the stored document does not keep it.
  */
  datatype FeedbackData = FeedbackData(
    userName: Option<string>,
    rating: Option<int>,
    feedback: Option<string>,
    productId: Id,
    approved: Option<bool>)

  /**
    The argument of `updateFeedbackById`: the fields to overwrite. A `productId` in it
    is dropped by the strict schema and is not represented.
  */
  datatype FeedbackPatch = FeedbackPatch(
    userName: Option<string>,
    rating: Option<int>,
    feedback: Option<string>,
    approved: Option<bool>)

  /** The fields of `data` that the Feedback schema knows. */
  function Draft(data: FeedbackData): FeedbackDraft
  {
    FeedbackDraft(data.userName, data.rating, data.feedback, data.approved)
  }

  /** Every stored feedback has a rating within the schema's bounds. */
  predicate RatingsInRange(feedbacks: seq<Doc<Feedback>>)
  {
    forall i :: 0 <= i < |feedbacks| ==> MinRating <= feedbacks[i].data.rating <= MaxRating
  }

  /** The product's feedback list names `id`. */
  predicate ListsFeedback(id: Id, p: Doc<Product>)
  {
    id in p.data.feedbacks
  }

  function ListsFeedbackOf(id: Id): Doc<Product> -> bool
  {
    p => ListsFeedback(id, p)
  }

  /** `$push: { feedbacks: fid }` on the product at position `i`. */
  function PushFeedback(products: seq<Doc<Product>>, i: nat, fid: Id): (r: seq<Doc<Product>>)
    requires i < |products|
    ensures SameIds(products, r)
    ensures r[i].data.feedbacks == products[i].data.feedbacks + [fid]
  {
    products[i := products[i].(data := products[i].data.(feedbacks := products[i].data.feedbacks + [fid]))]
  }

  /** `$pull: { feedbacks: fid }` on the product at position `i`. */
  function PullFeedback(products: seq<Doc<Product>>, i: nat, fid: Id): (r: seq<Doc<Product>>)
    requires i < |products|
    ensures SameIds(products, r)
    ensures fid !in r[i].data.feedbacks
  {
    products[i := products[i].(data := products[i].data.(feedbacks := Without(products[i].data.feedbacks, fid)))]
  }

  /**
    `createFeedback`: validate and save the feedback under a fresh id, then push that id
    onto the feedback list of the product `data.productId` names, if there is one.
  */
  function CreateFeedback(db: Db, data: FeedbackData): (r: Outcome<Doc<Feedback>>)
    ensures r.result.Success? <==> HasText(data.userName) && RatingValid(data.rating) && HasText(data.feedback)
    ensures r.result.Failure? ==> r.db == db && r.result.error == CreateFailed
    ensures r.result.Success? ==>
      && r.result.value.id == db.nextId
      && r.db.nextId == db.nextId + 1
      && r.db.feedbacks == db.feedbacks + [r.result.value]
      && r.db.stores == db.stores && r.db.blogs == db.blogs && r.db.orders == db.orders
      && r.result.value.data == Feedback(data.userName.value, data.rating.value, data.feedback.value, data.approved == Some(true))
      && MinRating <= r.result.value.data.rating <= MaxRating
    ensures r.result.Success? && !Holds(db.products, data.productId) ==> r.db.products == db.products
    ensures r.result.Success? && Holds(db.products, data.productId) ==>
      var i := IndexOf(db.products, data.productId).value;
      && SameExcept(db.products, r.db.products, i)
      && r.db.products[i].data == db.products[i].data.(feedbacks := db.products[i].data.feedbacks + [db.nextId])
  {
    match FeedbackModel.Create(Draft(data))
    case Failure(_) => Outcome(db, Failure(CreateFailed))
    case Success(f) =>
      var saved := Doc(db.nextId, f);
      var products := (
        match IndexOf(db.products, data.productId)
        case None => db.products
        case Some(i) => PushFeedback(db.products, i, saved.id));
      Outcome(db.(feedbacks := db.feedbacks + [saved], products := products, nextId := db.nextId + 1), Success(saved))
  }

  /** `fetchAllFeedback`: the whole collection in natural order. */
  function FetchAllFeedback(db: Db): (r: Result<seq<Doc<Feedback>>, string>)
    ensures r == Success(db.feedbacks)
    ensures forall id :: FetchFeedbackById(db, id).Success? <==> exists d :: d in r.value && d.id == id
  {
    Success(db.feedbacks)
  }

  /** `fetchFeedbackById`: the feedback with this id, or the fetch error when there is none. */
  function FetchFeedbackById(db: Db, id: Id): (r: Result<Doc<Feedback>, string>)
    ensures r.Success? <==> Holds(db.feedbacks, id)
    ensures r.Success? ==> r.value.id == id && r.value in db.feedbacks
    ensures r.Failure? ==> r.error == FetchFailed
  {
    match FindById(db.feedbacks, id)
    case None => Failure(FetchFailed)
    case Some(d) => Success(d)
  }

  /**
    `deleteFeedbackById`: first pull the id from the feedback list of the first product
    that lists it (`updateOne`), then delete the feedback. The pull stays even when there
    is no feedback to delete.
  */
  function DeleteFeedbackById(db: Db, id: Id): (r: Outcome<Doc<Feedback>>)
    ensures r.result.Success? <==> Holds(db.feedbacks, id)
    ensures r.result.Success? ==> r.result.value == FindById(db.feedbacks, id).value
    ensures r.result.Success? ==> r.db.feedbacks == RemoveAt(db.feedbacks, IndexOf(db.feedbacks, id).value)
    ensures r.result.Failure? ==> r.result.error == DeleteFailed && r.db.feedbacks == db.feedbacks
    ensures r.db.stores == db.stores && r.db.blogs == db.blogs && r.db.orders == db.orders && r.db.nextId == db.nextId
    ensures SameIds(db.products, r.db.products)
    ensures FirstWhere(db.products, ListsFeedbackOf(id)).None? ==> r.db.products == db.products
    ensures FirstWhere(db.products, ListsFeedbackOf(id)).Some? ==>
      var i := FirstWhere(db.products, ListsFeedbackOf(id)).value;
      && SameExcept(db.products, r.db.products, i)
      && id !in r.db.products[i].data.feedbacks
      && r.db.products[i].data.feedbacks == Without(db.products[i].data.feedbacks, id)
      && r.db.products[i].data == db.products[i].data.(feedbacks := r.db.products[i].data.feedbacks)
    ensures Count(r.db.products, ListsFeedbackOf(id)) == if Count(db.products, ListsFeedbackOf(id)) == 0 then 0
      else Count(db.products, ListsFeedbackOf(id)) - 1
    ensures |r.db.feedbacks| == |db.feedbacks| - (if r.result.Success? then 1 else 0)
  {
    var products := (
      match FirstWhere(db.products, ListsFeedbackOf(id))
      case None =>
        assert Positions(db.products, ListsFeedbackOf(id)) == {};
        db.products
      case Some(i) =>
        var pulled := PullFeedback(db.products, i, id);
        CountReplace(db.products, i, pulled[i], ListsFeedbackOf(id));
        assert pulled == db.products[i := pulled[i]];
        pulled);
    match IndexOf(db.feedbacks, id)
    case None => Outcome(db.(products := products), Failure(DeleteFailed))
    case Some(k) => Outcome(db.(products := products, feedbacks := RemoveAt(db.feedbacks, k)), Success(db.feedbacks[k]))
  }

  /** The feedback with the supplied fields overwritten and the others kept. */
  function Apply(f: Feedback, patch: FeedbackPatch): (r: Feedback)
    ensures r.userName == patch.userName.GetOr(f.userName) && r.rating == patch.rating.GetOr(f.rating)
    ensures r.feedback == patch.feedback.GetOr(f.feedback) && r.approved == patch.approved.GetOr(f.approved)
  {
    Feedback(patch.userName.GetOr(f.userName), patch.rating.GetOr(f.rating),
      patch.feedback.GetOr(f.feedback), patch.approved.GetOr(f.approved))
  }

  /**
    `updateFeedbackById`: overwrite the supplied fields of the feedback with this id and
    return the updated document. `findByIdAndUpdate` runs no validators, so the new
    values are stored as given.
  */
  function UpdateFeedbackById(db: Db, id: Id, patch: FeedbackPatch): (r: Outcome<Doc<Feedback>>)
    ensures r.result.Success? <==> Holds(db.feedbacks, id)
    ensures r.result.Failure? ==> r.db == db && r.result.error == UpdateFailed
    ensures r.result.Success? ==>
      var k := IndexOf(db.feedbacks, id).value;
      && r.db == db.(feedbacks := r.db.feedbacks)
      && SameExcept(db.feedbacks, r.db.feedbacks, k)
      && r.db.feedbacks[k] == r.result.value
      && r.result.value.id == id
      && r.result.value.data == Apply(db.feedbacks[k].data, patch)
      && r.result.value.data.rating == patch.rating.GetOr(db.feedbacks[k].data.rating)
  {
    match IndexOf(db.feedbacks, id)
    case None => Outcome(db, Failure(UpdateFailed))
    case Some(k) =>
      var updated := Doc(id, Apply(db.feedbacks[k].data, patch));
      Outcome(db.(feedbacks := db.feedbacks[k := updated]), Success(updated))
  }

  // ---------------------------------------------------------------------------
  // Properties across actions
  // ---------------------------------------------------------------------------

  /** Creating a feedback keeps the store well formed: the new id is fresh and only it is pushed. */
  lemma CreateFeedbackPreservesWf(db: Db, data: FeedbackData)
    requires Wf(db)
    ensures Wf(CreateFeedback(db, data).db)
  {
    var r := CreateFeedback(db, data);
    if r.result.Success? {
      InsertWellFormed(db.feedbacks, db.nextId, r.result.value.data);
      SameIdsWellFormed(db.products, r.db.products, db.nextId, db.nextId + 1);
      SameIdsWellFormed(db.stores, db.stores, db.nextId, db.nextId + 1);
      SameIdsWellFormed(db.blogs, db.blogs, db.nextId, db.nextId + 1);
      SameIdsWellFormed(db.orders, db.orders, db.nextId, db.nextId + 1);
    }
  }

  /** Deleting a feedback keeps the store well formed. */
  lemma DeleteFeedbackPreservesWf(db: Db, id: Id)
    requires Wf(db)
    ensures Wf(DeleteFeedbackById(db, id).db)
  {
    var r := DeleteFeedbackById(db, id);
    SameIdsWellFormed(db.products, r.db.products, db.nextId, db.nextId);
    forall i, x | 0 <= i < |r.db.products| && x in r.db.products[i].data.feedbacks
      ensures x < db.nextId
    {
      if r.db.products[i].data.feedbacks != db.products[i].data.feedbacks {
        WithoutSubset<Id>(db.products[i].data.feedbacks, id, x);
      }
    }
    match IndexOf(db.feedbacks, id)
    case None =>
    case Some(k) => RemoveWellFormed(db.feedbacks, k, db.nextId);
  }

  /** A successful update keeps the store well formed: no id changes. */
  lemma UpdateFeedbackPreservesWf(db: Db, id: Id, patch: FeedbackPatch)
    requires Wf(db)
    ensures Wf(UpdateFeedbackById(db, id, patch).db)
  {
    var r := UpdateFeedbackById(db, id, patch);
    SameIdsWellFormed(db.feedbacks, r.db.feedbacks, db.nextId, db.nextId);
  }

  /** Create and delete never store a rating outside 1..5. */
  lemma CreateDeleteKeepRatingsInRange(db: Db, data: FeedbackData, id: Id)
    requires RatingsInRange(db.feedbacks)
    ensures RatingsInRange(CreateFeedback(db, data).db.feedbacks)
    ensures RatingsInRange(DeleteFeedbackById(db, id).db.feedbacks)
  {
    var r := DeleteFeedbackById(db, id);
    if r.result.Success? {
      var k := IndexOf(db.feedbacks, id).value;
      forall i | 0 <= i < |r.db.feedbacks|
        ensures MinRating <= r.db.feedbacks[i].data.rating <= MaxRating
      {
        assert r.db.feedbacks[i] == db.feedbacks[if i < k then i else i + 1];
      }
    }
  }

  /**
    An update stores whatever rating it is given: one feedback rated 4 and a patch with
    rating 9 leave a rating outside the schema's bounds.
  */
  lemma UpdateCanBreakRatingBounds()
    ensures var db := Db([], [], [Doc(0, Feedback("ana", 4, "good", false))], [], [], 1);
      && RatingsInRange(db.feedbacks)
      && !RatingsInRange(UpdateFeedbackById(db, 0, FeedbackPatch(None, Some(9), None, None)).db.feedbacks)
  {
    var db := Db([], [], [Doc(0, Feedback("ana", 4, "good", false))], [], [], 1);
    var r := UpdateFeedbackById(db, 0, FeedbackPatch(None, Some(9), None, None));
    assert r.db.feedbacks[0].data.rating == 9;
  }

  /** Applying the same update twice is the same as applying it once. */
  lemma UpdateIdempotent(db: Db, id: Id, patch: FeedbackPatch)
    ensures var once := UpdateFeedbackById(db, id, patch);
      UpdateFeedbackById(once.db, id, patch) == once
  {
    var once := UpdateFeedbackById(db, id, patch);
    if once.result.Success? {
      SameIdsIndexOf(db.feedbacks, once.db.feedbacks, id);
    }
  }

  /** The feedback just created can be fetched back unchanged. */
  lemma FetchAfterCreate(db: Db, data: FeedbackData)
    requires Wf(db)
    requires CreateFeedback(db, data).result.Success?
    ensures var r := CreateFeedback(db, data);
      FetchFeedbackById(r.db, r.result.value.id) == Success(r.result.value)
  {
    var r := CreateFeedback(db, data);
    CreateFeedbackPreservesWf(db, data);
    UniqueIndex(r.db.feedbacks, |db.feedbacks|);
  }

  /** After a delete, fetching the id fails: the only feedback with it is gone. */
  lemma DeletedFeedbackIsGone(db: Db, id: Id)
    requires UniqueIds(db.feedbacks)
    ensures FetchFeedbackById(DeleteFeedbackById(db, id).db, id) == Failure(FetchFailed)
  {
    match IndexOf(db.feedbacks, id)
    case None =>
    case Some(k) => RemoveUnique(db.feedbacks, k);
  }

  /** Pulling an id that no product listed before it was pushed onto one product undoes the push. */
  lemma PullUndoesPush(products: seq<Doc<Product>>, i: nat, fid: Id)
    requires i < |products|
    requires forall j :: 0 <= j < |products| ==> fid !in products[j].data.feedbacks
    ensures FirstWhere(PushFeedback(products, i, fid), ListsFeedbackOf(fid)) == Some(i)
    ensures PullFeedback(PushFeedback(products, i, fid), i, fid) == products
  {
    var pushed := PushFeedback(products, i, fid);
    var before := products[i].data.feedbacks;
    assert ListsFeedbackOf(fid)(pushed[i]);
    assert forall j :: 0 <= j < |pushed| && j != i ==> !ListsFeedbackOf(fid)(pushed[j]);
    WithoutAppend(before, [fid], fid);
    WithoutAbsent(before, fid);
    assert Without([fid], fid) == [];
    assert pushed[i].data.feedbacks == before + [fid];
    var pulled := PullFeedback(pushed, i, fid);
    assert pulled[i].data == products[i].data;
    assert pulled[i] == products[i];
  }

  /**
    Deleting the feedback just created undoes the creation: the feedback is gone, the
    product's list is as before, and only the generator has moved on.
  */
  lemma DeleteUndoesCreate(db: Db, data: FeedbackData)
    requires Wf(db)
    requires CreateFeedback(db, data).result.Success?
    ensures var c := CreateFeedback(db, data);
      DeleteFeedbackById(c.db, c.result.value.id) == Outcome(db.(nextId := db.nextId + 1), Success(c.result.value))
  {
    var c := CreateFeedback(db, data);
    var fid := db.nextId;
    CreateFeedbackPreservesWf(db, data);
    // The feedback is the last document and the only one with its id.
    UniqueIndex(c.db.feedbacks, |db.feedbacks|);
    assert RemoveAt(c.db.feedbacks, |db.feedbacks|) == db.feedbacks;
    // No product listed the fresh id before, so the pull undoes the push.
    assert forall j :: 0 <= j < |db.products| ==> fid !in db.products[j].data.feedbacks;
    match IndexOf(db.products, data.productId)
    case None =>
      assert FirstWhere(c.db.products, ListsFeedbackOf(fid)).None? by {
        assert forall j :: 0 <= j < |c.db.products| ==> !ListsFeedbackOf(fid)(c.db.products[j]);
      }
    case Some(i) =>
      assert c.db.products == PushFeedback(db.products, i, fid);
      PullUndoesPush(db.products, i, fid);
  }
}
