/** The Product document (models/product.model.ts). */
module ProductModel {
  import opened Wrappers
  import opened Documents

  /**
    A product of a store. `price` is an integer amount (cents). `feedbacks` and `blogs`
    are the back-reference lists the feedback and blog actions maintain.
  */
  datatype Product = Product(
    storeId: Id,
    categoryId: Id,
    name: string,
    price: int,
    isFeatured: bool,
    isArchived: bool,
    sizeId: Id,
    flavourId: Id,
    images: seq<Id>,
    orderItems: seq<Id>,
    feedbacks: seq<Id>,
    blogs: seq<Id>)

  /** The fields a caller supplies when a product is created; a missing field is `None`. */
  datatype ProductDraft = ProductDraft(
    storeId: Option<Id>,
    categoryId: Option<Id>,
    name: Option<string>,
    price: Option<int>,
    isFeatured: Option<bool>,
    isArchived: Option<bool>,
    sizeId: Option<Id>,
    flavourId: Option<Id>,
    images: seq<Id>,
    orderItems: seq<Id>)

  /** Every required path of the schema has a value. */
  predicate Complete(d: ProductDraft)
  {
    && d.storeId.Some? && d.categoryId.Some? && HasText(d.name) && d.price.Some?
    && d.sizeId.Some? && d.flavourId.Some?
  }

  /** The required paths that have no value, in schema order. */
  function MissingPaths(d: ProductDraft): (paths: seq<string>)
    ensures |paths| == 0 <==> Complete(d)
    ensures "storeId" in paths <==> d.storeId.None?
    ensures "categoryId" in paths <==> d.categoryId.None?
    ensures "name" in paths <==> !HasText(d.name)
    ensures "price" in paths <==> d.price.None?
    ensures "sizeId" in paths <==> d.sizeId.None?
    ensures "flavourId" in paths <==> d.flavourId.None?
  {
    var ids := Missing("storeId", d.storeId.Some?) + Missing("categoryId", d.categoryId.Some?);
    var fields := Missing("name", HasText(d.name)) + Missing("price", d.price.Some?);
    var refs := Missing("sizeId", d.sizeId.Some?) + Missing("flavourId", d.flavourId.Some?);
    ids + fields + refs
  }

  /**
    Building and validating a new product document: six paths are required, the two
    flags default to false and the reference lists start as given (or empty).
  */
  function Create(d: ProductDraft): (r: Result<Product, ValidationError>)
    ensures r.Success? <==> Complete(d)
    ensures r.Failure? ==> |r.error.paths| > 0 && (d.price.None? ==> "price" in r.error.paths)
    ensures r.Failure? ==> (!HasText(d.name) ==> "name" in r.error.paths)
    ensures r.Success? ==> r.value.isFeatured == (d.isFeatured == Some(true))
    ensures r.Success? ==> r.value.isArchived == (d.isArchived == Some(true))
    ensures r.Success? ==> r.value.storeId == d.storeId.value && r.value.name == d.name.value
    ensures r.Success? ==> r.value.price == d.price.value && r.value.feedbacks == [] && r.value.blogs == []
    ensures r.Success? ==>
      && r.value.categoryId == d.categoryId.value && r.value.sizeId == d.sizeId.value
      && r.value.flavourId == d.flavourId.value && r.value.images == d.images && r.value.orderItems == d.orderItems
    ensures r.Failure? ==>
      && ("storeId" in r.error.paths <==> d.storeId.None?)
      && ("categoryId" in r.error.paths <==> d.categoryId.None?)
      && ("name" in r.error.paths <==> !HasText(d.name))
      && ("price" in r.error.paths <==> d.price.None?)
      && ("sizeId" in r.error.paths <==> d.sizeId.None?)
      && ("flavourId" in r.error.paths <==> d.flavourId.None?)
  {
    var missing := MissingPaths(d);
    if |missing| > 0 then Failure(ValidationError(missing))
    else
      Success(Product(
        d.storeId.value, d.categoryId.value, d.name.value, d.price.value,
        d.isFeatured.GetOr(false), d.isArchived.GetOr(false),
        d.sizeId.value, d.flavourId.value, d.images, d.orderItems, [], []))
  }
}
