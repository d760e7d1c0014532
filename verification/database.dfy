/** The state of the document store: one collection per model and the id generator. */
module Database {
  import opened Wrappers
  import opened Documents
  import opened StoreModel
  import opened ProductModel
  import opened FeedbackModel
  import opened BlogModel
  import opened OrderModel
  import opened Http

  /**
    The collections the modelled actions read and write. `nextId` is the next ObjectId
    the generator hands out; ids are never handed out twice.
  */
  datatype Db = Db(
    stores: seq<Doc<Store>>,
    products: seq<Doc<Product>>,
    feedbacks: seq<Doc<Feedback>>,
    blogs: seq<Doc<BlogPost>>,
    orders: seq<Doc<Order>>,
    nextId: Id)

  /** Every id a product lists as one of its feedbacks or blogs was handed out by the generator. */
  predicate RefsBelow(products: seq<Doc<Product>>, bound: Id)
  {
    && (forall i, x :: 0 <= i < |products| && x in products[i].data.feedbacks ==> x < bound)
    && (forall i, x :: 0 <= i < |products| && x in products[i].data.blogs ==> x < bound)
  }

  /**
    Every collection has unique ids, all handed out by the generator, and the products'
    back-reference lists hold only ids handed out so far.
  */
  predicate Wf(db: Db)
  {
    && RefsBelow(db.products, db.nextId)
    && WellFormed(db.stores, db.nextId)
    && WellFormed(db.products, db.nextId)
    && WellFormed(db.feedbacks, db.nextId)
    && WellFormed(db.blogs, db.nextId)
    && WellFormed(db.orders, db.nextId)
  }

  /** The state after a server action together with what it returned or threw. */
  datatype Outcome<+T> = Outcome(db: Db, result: Result<T, string>)

  /** The state after a route handler together with the response it produced. */
  datatype Served<+T> = Served(db: Db, response: Response<T>)
}
