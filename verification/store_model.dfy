/** The Store document (models/store.model.ts), the tenant that owns everything else. */
module StoreModel {
  import opened Wrappers
  import opened Documents

  /** A store: its name, its owner's user id and six lists of ids of the things it owns. */
  datatype Store = Store(
    name: string,
    userId: string,
    billboards: seq<Id>,
    categories: seq<Id>,
    products: seq<Id>,
    sizes: seq<Id>,
    colors: seq<Id>,
    orders: seq<Id>)

  /** None of the six reference lists holds an id. */
  predicate NothingOwned(s: Store)
  {
    s.billboards == [] && s.categories == [] && s.products == []
    && s.sizes == [] && s.colors == [] && s.orders == []
  }

  /**
    `Store.create({ userId, name })`: both are required, and a store created from only
    these two starts owning nothing.
  */
  function Create(name: Option<string>, userId: Option<string>): (r: Result<Store, ValidationError>)
    ensures r.Success? <==> HasText(name) && HasText(userId)
    ensures r.Success? ==> r.value.name == name.value && r.value.userId == userId.value
    ensures r.Success? ==> NothingOwned(r.value)
  {
    var errors := Missing("name", HasText(name)) + Missing("userId", HasText(userId));
    if |errors| > 0 then Failure(ValidationError(errors))
    else Success(Store(name.value, userId.value, [], [], [], [], [], []))
  }
}
