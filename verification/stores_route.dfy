/**
  Creating a store (`POST` in app/api/stores/route.ts): the signed-in user names a new
  store and becomes its owner. The name is checked before the caller's identity.
*/
module StoresRoute {
  import opened Wrappers
  import opened Documents
  import opened StoreModel
  import opened Http
  import opened Database

  const NameRequired := "Name is required"
  const Unauthorized := "Unauthorized"
  const InternalError := "Internal error"

  /**
    The parsed request body: the JSON `null` (destructuring it throws) or an object
    whose `name` field may be missing.
  */
  datatype StoreBody = NullBody | Fields(name: Option<string>)

  /**
    The handler. `userId` is what the authentication provider reports for the request
    (`None` when nobody is signed in); a body that is not JSON, or is `null`, ends in the
    catch-all 500 answer. A store that passes both checks is created under a fresh id.
  */
  function PostStore(db: Db, userId: Option<string>, body: Payload<StoreBody>): (r: Served<Doc<Store>>)
    ensures (body.Unparseable? || body.value.NullBody?) ==> r == Served(db, Plain(500, InternalError))
    ensures body.Parsed? && body.value.Fields? && !HasText(body.value.name) ==>
      r == Served(db, Plain(400, NameRequired))
    ensures body.Parsed? && body.value.Fields? && HasText(body.value.name) && !HasText(userId) ==>
      r == Served(db, Plain(401, Unauthorized))
    ensures r.response.Json? <==> body.Parsed? && body.value.Fields? && HasText(body.value.name) && HasText(userId)
    ensures r.response.Json? ==>
      && r.response.value.id == db.nextId
      && r.response.value.data.name == body.value.name.value
      && r.response.value.data.userId == userId.value
      && NothingOwned(r.response.value.data)
      && r.db == db.(stores := db.stores + [r.response.value], nextId := db.nextId + 1)
  {
    match body
    case Unparseable => Served(db, Plain(500, InternalError))
    case Parsed(NullBody) => Served(db, Plain(500, InternalError))
    case Parsed(Fields(name)) =>
      if !HasText(name) then Served(db, Plain(400, NameRequired))
      else if !HasText(userId) then Served(db, Plain(401, Unauthorized))
      else
        match StoreModel.Create(name, userId)
        case Failure(_) => Served(db, Plain(500, InternalError))
        case Success(s) =>
          var doc := Doc(db.nextId, s);
          Served(db.(stores := db.stores + [doc], nextId := db.nextId + 1), Json(doc))
  }

  /** Only a successful request changes the state, and it keeps the state well formed. */
  lemma PostStorePreservesWf(db: Db, userId: Option<string>, body: Payload<StoreBody>)
    requires Wf(db)
    ensures var r := PostStore(db, userId, body);
      && Wf(r.db)
      && (r.response.Json? || r.db == db)
  {
    var r := PostStore(db, userId, body);
    if r.response.Json? {
      InsertWellFormed(db.stores, db.nextId, r.response.value.data);
      SameIdsWellFormed(db.products, db.products, db.nextId, db.nextId + 1);
      SameIdsWellFormed(db.feedbacks, db.feedbacks, db.nextId, db.nextId + 1);
      SameIdsWellFormed(db.blogs, db.blogs, db.nextId, db.nextId + 1);
      SameIdsWellFormed(db.orders, db.orders, db.nextId, db.nextId + 1);
    }
  }

  /** The store answered in the response is the one a later lookup by its id finds. */
  lemma CreatedStoreIsFound(db: Db, userId: Option<string>, body: Payload<StoreBody>)
    requires Wf(db)
    requires PostStore(db, userId, body).response.Json?
    ensures var r := PostStore(db, userId, body);
      FindById(r.db.stores, r.response.value.id) == Some(r.response.value)
  {
    var r := PostStore(db, userId, body);
    PostStorePreservesWf(db, userId, body);
    UniqueIndex(r.db.stores, |db.stores|);
  }
}
